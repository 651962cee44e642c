/**
 The on-disk redo log of kernel/log.c: its layout, what a disk image is worth
 after a crash, and the effect of each of the four kinds of block write that
 committing and recovering perform.
 */
module LogCore {
  import opened Words

  const MAXOPBLOCKS: nat := 10
  const LOGSIZE: nat := 3 * MAXOPBLOCKS

  type Disk = seq<Block>

  /** Where the log lives: header block `start`, then `size - 1` data blocks. */
  datatype Geometry = Geometry(start: nat, size: nat)

  ghost predicate Fits(g: Geometry, d: Disk) {
    0 < g.size && g.start + g.size <= |d| && |d| < 0x1_0000_0000
  }

  predicate InLog(g: Geometry, b: int) {
    g.start <= b < g.start + g.size
  }

  /** A home block: any block of an n-block disk outside the log. */
  predicate IsHome(g: Geometry, n: nat, b: int) {
    0 <= b < n && !InLog(g, b)
  }

  // ----- the header block -----

  ghost predicate HeadFits(b: Block) {
    Word(b, 0) <= LOGSIZE
  }

  /** The block numbers a header block lists: `n` and then `block[0..n]`. */
  function Head(b: Block): (list: seq<uint>)
    requires HeadFits(b)
    ensures |list| == Word(b, 0)
  {
    seq(Word(b, 0), i requires 0 <= i < Word(b, 0) => Word(b, i + 1))
  }

  /** The log on disk holds the transaction `list`. */
  ghost predicate HeadIs(g: Geometry, d: Disk, list: seq<uint>) {
    Fits(g, d) && HeadFits(d[g.start]) && Head(d[g.start]) == list
  }

  /** Overwrite the first k entries; older entries further on stay in place. */
  function PutEntries(b: Block, list: seq<uint>, k: nat): Block
    requires k <= |list| <= LOGSIZE
  {
    if k == 0 then b else SetWord(PutEntries(b, list, k - 1), k, list[k - 1])
  }

  function PutHead(b: Block, list: seq<uint>): Block
    requires |list| <= LOGSIZE
  {
    PutEntries(SetWord(b, 0, |list|), list, |list|)
  }

  lemma {:induction false} EntriesAfterPut(b: Block, list: seq<uint>, k: nat, j: nat)
    requires k <= |list| <= LOGSIZE && j <= LOGSIZE
    ensures Word(PutEntries(b, list, k), j) == if 1 <= j <= k then list[j - 1] else Word(b, j)
  {
    if k > 0 {
      EntriesAfterPut(b, list, k - 1, j);
      WordAfterSet(PutEntries(b, list, k - 1), k, list[k - 1], j);
    }
  }

  /** Reading back a header that was written gives the list that was written. */
  lemma HeadAfterPut(b: Block, list: seq<uint>)
    requires |list| <= LOGSIZE
    ensures HeadFits(PutHead(b, list)) && Head(PutHead(b, list)) == list
  {
    var b0 := SetWord(b, 0, |list|);
    WordAfterSet(b, 0, |list|, 0);
    EntriesAfterPut(b0, list, |list|, 0);
    forall i | 0 <= i < |list|
      ensures Word(PutHead(b, list), i + 1) == list[i]
    {
      EntriesAfterPut(b0, list, |list|, i + 1);
    }
    assert HeadFits(PutHead(b, list));
    assert forall i :: 0 <= i < |list| ==> Head(PutHead(b, list))[i] == Word(PutHead(b, list), i + 1);
  }

  // ----- what a disk recovers to -----

  /** A list of blocks that may be logged: distinct home blocks, few enough. */
  ghost predicate Loggable(g: Geometry, n: nat, list: seq<uint>) {
    && |list| <= LOGSIZE && |list| < g.size
    && (forall i :: 0 <= i < |list| ==> IsHome(g, n, list[i]))
    && (forall i, j :: 0 <= i < j < |list| ==> list[i] != list[j])
  }

  ghost predicate ValidLog(g: Geometry, d: Disk) {
    && Fits(g, d)
    && HeadFits(d[g.start])
    && Loggable(g, |d|, Head(d[g.start]))
  }

  /** The k-th logged block, as stored in the log. */
  function Logged(g: Geometry, d: Disk, k: nat): Block
    requires g.start + 1 + k < |d|
  {
    d[g.start + 1 + k]
  }

  /**
   `home` holds the home blocks that a crash leaving disk `d` amounts to:
   listed blocks count as their log copies, all others as they stand.
   */
  ghost predicate RecoversTo(g: Geometry, d: Disk, home: Disk) {
    && ValidLog(g, d)
    && |home| == |d|
    && var list := Head(d[g.start]);
    && (forall k :: 0 <= k < |list| ==> Logged(g, d, k) == home[list[k]])
    && (forall b :: IsHome(g, |d|, b) && b !in list ==> d[b] == home[b])
  }

  /** Two disks agree on every home block. */
  ghost predicate SameHome(g: Geometry, d: Disk, e: Disk) {
    |d| == |e| && forall b :: IsHome(g, |d|, b) ==> d[b] == e[b]
  }

  /** A disk recovers to one state only. */
  lemma RecoveryIsUnique(g: Geometry, d: Disk, h: Disk, h': Disk)
    requires RecoversTo(g, d, h) && RecoversTo(g, d, h')
    ensures SameHome(g, h, h')
  {
    var list := Head(d[g.start]);
    forall b | IsHome(g, |d|, b)
      ensures h[b] == h'[b]
    {
      if b in list {
        var k :| 0 <= k < |list| && list[k] == b;
        assert Logged(g, d, k) == h[b];
      }
    }
  }

  // ----- the four block writes -----

  /** Filling the log before the header is written changes nothing yet. */
  lemma WriteLogBlockKeeps(g: Geometry, d: Disk, h: Disk, k: nat, v: Block)
    requires RecoversTo(g, d, h) && HeadIs(g, d, [])
    requires g.start + 1 + k < g.start + g.size
    ensures RecoversTo(g, d[g.start + 1 + k := v], h)
  {
    var d' := d[g.start + 1 + k := v];
    assert d'[g.start] == d[g.start];
  }

  /** Writing the header switches from the old state to the new one at once. */
  lemma WriteHeadCommits(g: Geometry, d: Disk, h: Disk, list: seq<uint>, new': Disk)
    requires RecoversTo(g, d, h) && HeadIs(g, d, [])
    requires Loggable(g, |d|, list)
    requires |new'| == |d|
    requires forall k :: 0 <= k < |list| ==> Logged(g, d, k) == new'[list[k]]
    requires forall b :: IsHome(g, |d|, b) && b !in list ==> h[b] == new'[b]
    ensures RecoversTo(g, d[g.start := PutHead(d[g.start], list)], new')
    ensures HeadIs(g, d[g.start := PutHead(d[g.start], list)], list)
  {
    HeadAfterPut(d[g.start], list);
    var d' := d[g.start := PutHead(d[g.start], list)];
    forall k | 0 <= k < |list|
      ensures Logged(g, d', k) == new'[list[k]]
    {
      assert Logged(g, d, k) == new'[list[k]];
    }
  }

  /** Installing a logged block again, in any order, changes nothing. */
  lemma InstallKeeps(g: Geometry, d: Disk, h: Disk, k: nat)
    requires RecoversTo(g, d, h) && k < |Head(d[g.start])|
    ensures var b := Head(d[g.start])[k];
            var d' := d[b := Logged(g, d, k)];
            && RecoversTo(g, d', h) && d'[g.start] == d[g.start]
            && forall i :: 0 <= i < |Head(d[g.start])| ==> Logged(g, d', i) == Logged(g, d, i)
  {
    var list := Head(d[g.start]);
    var d' := d[list[k] := Logged(g, d, k)];
    assert IsHome(g, |d|, list[k]);
    assert d'[g.start] == d[g.start];
    forall i | 0 <= i < |list|
      ensures Logged(g, d', i) == h[list[i]]
    {
      assert Logged(g, d', i) == Logged(g, d, i);
    }
  }

  /** Once every logged block is home, clearing the header changes nothing. */
  lemma ClearHeadKeeps(g: Geometry, d: Disk, h: Disk)
    requires RecoversTo(g, d, h)
    requires forall k :: 0 <= k < |Head(d[g.start])| ==> d[Head(d[g.start])[k]] == Logged(g, d, k)
    ensures RecoversTo(g, d[g.start := PutHead(d[g.start], [])], h)
    ensures HeadIs(g, d[g.start := PutHead(d[g.start], [])], [])
    ensures SameHome(g, d[g.start := PutHead(d[g.start], [])], h)
  {
    HeadAfterPut(d[g.start], []);
    var list := Head(d[g.start]);
    forall b | IsHome(g, |d|, b)
      ensures d[b] == h[b]
    {
      if b in list {
        var k :| 0 <= k < |list| && list[k] == b;
        assert Logged(g, d, k) == h[b];
      }
    }
  }

  // ----- the disks a crash can leave behind -----

  /** The disk after k blocks of `list` were copied from the cache to the log. */
  function Filled(g: Geometry, d: Disk, list: seq<uint>, cache: Disk, k: nat): (e: Disk)
    requires Fits(g, d) && Loggable(g, |d|, list) && |cache| == |d| && k <= |list|
    ensures |e| == |d|
  {
    if k == 0 then d else Filled(g, d, list, cache, k - 1)[g.start + k := cache[list[k - 1]]]
  }

  /** `onto` after k blocks of `list` were copied home from the log in d. */
  function Overlaid(g: Geometry, d: Disk, list: seq<uint>, onto: Disk, k: nat): (e: Disk)
    requires Fits(g, d) && Loggable(g, |d|, list) && |onto| == |d| && k <= |list|
    ensures |e| == |d|
  {
    if k == 0 then onto else Overlaid(g, d, list, onto, k - 1)[list[k - 1] := Logged(g, d, k - 1)]
  }

  /** The disk after k blocks of `list` were copied from the log to their homes. */
  function Installed(g: Geometry, d: Disk, list: seq<uint>, k: nat): (e: Disk)
    requires Fits(g, d) && Loggable(g, |d|, list) && k <= |list|
    ensures |e| == |d|
  {
    Overlaid(g, d, list, d, k)
  }

  function WithHead(g: Geometry, d: Disk, list: seq<uint>): (e: Disk)
    requires Fits(g, d) && |list| <= LOGSIZE
    ensures |e| == |d|
  {
    d[g.start := PutHead(d[g.start], list)]
  }

  /** How many block writes committing `list` takes. */
  function CommitWrites(list: seq<uint>): nat { 2 * |list| + 2 }

  /** The disk after the first j block writes of committing `list`. */
  function CommitPoint(g: Geometry, d: Disk, list: seq<uint>, cache: Disk, j: nat): (e: Disk)
    requires Fits(g, d) && Loggable(g, |d|, list) && |cache| == |d| && j <= CommitWrites(list)
    ensures |e| == |d|
  {
    var n := |list|;
    if j <= n then
      Filled(g, d, list, cache, j)
    else
      var committed := WithHead(g, Filled(g, d, list, cache, n), list);
      if j <= 2 * n + 1 then
        Installed(g, committed, list, j - n - 1)
      else
        WithHead(g, Installed(g, committed, list, n), [])
  }

  function RecoverWrites(g: Geometry, d: Disk): nat
    requires ValidLog(g, d)
  {
    |Head(d[g.start])| + 1
  }

  /** The disk after the first j block writes of recovering from d. */
  function RecoverPoint(g: Geometry, d: Disk, j: nat): (e: Disk)
    requires ValidLog(g, d) && j <= RecoverWrites(g, d)
    ensures |e| == |d|
  {
    var list := Head(d[g.start]);
    if j <= |list| then Installed(g, d, list, j) else WithHead(g, Installed(g, d, list, |list|), [])
  }

  // The disks passed through, one per block write, in order.

  function FilledPoints(g: Geometry, d: Disk, list: seq<uint>, cache: Disk): (ps: seq<Disk>)
    requires Fits(g, d) && Loggable(g, |d|, list) && |cache| == |d|
    ensures |ps| == |list| && forall k :: 0 <= k < |ps| ==> ps[k] == Filled(g, d, list, cache, k + 1)
  {
    seq(|list|, k requires 0 <= k < |list| => Filled(g, d, list, cache, k + 1))
  }

  function InstalledPoints(g: Geometry, d: Disk, list: seq<uint>): (ps: seq<Disk>)
    requires Fits(g, d) && Loggable(g, |d|, list)
    ensures |ps| == |list| && forall k :: 0 <= k < |ps| ==> ps[k] == Installed(g, d, list, k + 1)
  {
    seq(|list|, k requires 0 <= k < |list| => Installed(g, d, list, k + 1))
  }

  function CommitPoints(g: Geometry, d: Disk, list: seq<uint>, cache: Disk): (ps: seq<Disk>)
    requires Fits(g, d) && Loggable(g, |d|, list) && |cache| == |d|
    ensures |ps| == CommitWrites(list)
    ensures forall j :: 0 <= j < |ps| ==> ps[j] == CommitPoint(g, d, list, cache, j + 1)
  {
    seq(CommitWrites(list), j requires 0 <= j < CommitWrites(list) => CommitPoint(g, d, list, cache, j + 1))
  }

  function RecoverPoints(g: Geometry, d: Disk): (ps: seq<Disk>)
    requires ValidLog(g, d)
    ensures |ps| == RecoverWrites(g, d) && forall j :: 0 <= j < |ps| ==> ps[j] == RecoverPoint(g, d, j + 1)
  {
    seq(RecoverWrites(g, d), j requires 0 <= j < RecoverWrites(g, d) => RecoverPoint(g, d, j + 1))
  }

  lemma AppendAssoc<T>(a: seq<T>, b: seq<T>, c: seq<T>)
    ensures a + b + c == a + (b + c)
  {}

  lemma CommitPointsSplit(g: Geometry, d: Disk, list: seq<uint>, cache: Disk)
    requires Fits(g, d) && Loggable(g, |d|, list) && |cache| == |d|
    ensures var full := Filled(g, d, list, cache, |list|);
            var committed := WithHead(g, full, list);
            CommitPoints(g, d, list, cache) ==
              FilledPoints(g, d, list, cache) + [committed] + InstalledPoints(g, committed, list)
              + [WithHead(g, Installed(g, committed, list, |list|), [])]
  {}

  lemma {:induction false} FilledKeeps(g: Geometry, d: Disk, h: Disk, list: seq<uint>, cache: Disk, k: nat)
    requires RecoversTo(g, d, h) && HeadIs(g, d, [])
    requires Loggable(g, |d|, list) && |cache| == |d| && k <= |list|
    ensures var e := Filled(g, d, list, cache, k);
            && RecoversTo(g, e, h) && e[g.start] == d[g.start]
            && forall i :: 0 <= i < k ==> Logged(g, e, i) == cache[list[i]]
  {
    if k > 0 {
      FilledKeeps(g, d, h, list, cache, k - 1);
      WriteLogBlockKeeps(g, Filled(g, d, list, cache, k - 1), h, k - 1, cache[list[k - 1]]);
      var e0 := Filled(g, d, list, cache, k - 1);
      var e := Filled(g, d, list, cache, k);
      forall i | 0 <= i < k
        ensures Logged(g, e, i) == cache[list[i]]
      {
        if i < k - 1 { assert Logged(g, e0, i) == cache[list[i]]; }
      }
    }
  }

  /** Copying home leaves the log alone and puts each listed block in place. */
  lemma {:induction false} OverlaidAt(g: Geometry, d: Disk, list: seq<uint>, onto: Disk, k: nat)
    requires Fits(g, d) && Loggable(g, |d|, list) && |onto| == |d| && k <= |list|
    ensures var e := Overlaid(g, d, list, onto, k);
            && (forall b :: InLog(g, b) ==> e[b] == onto[b])
            && (forall i :: 0 <= i < k ==> e[list[i]] == Logged(g, d, i))
            && (forall b :: IsHome(g, |d|, b) && b !in list ==> e[b] == onto[b])
  {
    if k > 0 {
      OverlaidAt(g, d, list, onto, k - 1);
      assert IsHome(g, |d|, list[k - 1]);
    }
  }

  lemma InstalledKeeps(g: Geometry, d: Disk, h: Disk, list: seq<uint>, k: nat)
    requires RecoversTo(g, d, h) && HeadIs(g, d, list) && k <= |list|
    ensures var e := Installed(g, d, list, k);
            && RecoversTo(g, e, h) && HeadIs(g, e, list)
            && forall i :: 0 <= i < k ==> e[list[i]] == Logged(g, e, i)
  {
    var e := Installed(g, d, list, k);
    OverlaidAt(g, d, list, d, k);
    assert InLog(g, g.start);
    forall i | 0 <= i < |list|
      ensures Logged(g, e, i) == Logged(g, d, i)
    {
      assert InLog(g, g.start + 1 + i);
    }
  }

  /** The state that committing `list` is to produce. */
  ghost predicate IsUpdate(g: Geometry, h: Disk, list: seq<uint>, cache: Disk) {
    |h| == |cache| && forall b :: IsHome(g, |h|, b) && b !in list ==> cache[b] == h[b]
  }

  /**
   Crash atomicity of commit(): a crash after any number of its block writes
   leaves a disk that recovers to exactly the old state, up to the write of the
   header, and to exactly the new state from that write on.
   */
  lemma CommitIsAtomic(g: Geometry, d: Disk, h: Disk, list: seq<uint>, cache: Disk, j: nat)
    requires RecoversTo(g, d, h) && HeadIs(g, d, [])
    requires Loggable(g, |d|, list) && IsUpdate(g, h, list, cache)
    requires j <= CommitWrites(list)
    ensures RecoversTo(g, CommitPoint(g, d, list, cache, j), if j <= |list| then h else cache)
    ensures j == CommitWrites(list) ==>
              var e := CommitPoint(g, d, list, cache, j);
              HeadIs(g, e, []) && SameHome(g, e, cache)
  {
    var n := |list|;
    if j <= n {
      FilledKeeps(g, d, h, list, cache, j);
    } else {
      AfterHeadWrite(g, d, h, list, cache, if j <= 2 * n + 1 then j - n - 1 else n);
      if j == CommitWrites(list) {
        var committed := WithHead(g, Filled(g, d, list, cache, n), list);
        ClearHeadKeeps(g, Installed(g, committed, list, n), cache);
      }
    }
  }

  /** From the header write on, k installed blocks in, the new state stands. */
  lemma AfterHeadWrite(g: Geometry, d: Disk, h: Disk, list: seq<uint>, cache: Disk, k: nat)
    requires RecoversTo(g, d, h) && HeadIs(g, d, [])
    requires Loggable(g, |d|, list) && IsUpdate(g, h, list, cache)
    requires k <= |list|
    ensures var e := Installed(g, WithHead(g, Filled(g, d, list, cache, |list|), list), list, k);
            && RecoversTo(g, e, cache) && HeadIs(g, e, list)
            && forall i :: 0 <= i < k ==> e[list[i]] == Logged(g, e, i)
  {
    FilledKeeps(g, d, h, list, cache, |list|);
    var full := Filled(g, d, list, cache, |list|);
    WriteHeadCommits(g, full, h, list, cache);
    InstalledKeeps(g, WithHead(g, full, list), cache, list, k);
  }

  /** Block writes reach disk and cache alike, so the cache ends up with the committed contents too. */
  lemma CommitLeavesCache(g: Geometry, d: Disk, h: Disk, list: seq<uint>, cache: Disk)
    requires RecoversTo(g, d, h) && HeadIs(g, d, [])
    requires Loggable(g, |d|, list) && IsUpdate(g, h, list, cache)
    ensures var committed := WithHead(g, Filled(g, d, list, cache, |list|), list);
            SameHome(g, Overlaid(g, committed, list, WithHead(g, Filled(g, cache, list, cache, |list|), list), |list|),
                  cache)
  {
    var n := |list|;
    AfterHeadWrite(g, d, h, list, cache, 0);
    FilledHome(g, cache, list, cache, n);
    var committed := WithHead(g, Filled(g, d, list, cache, n), list);
    var onto := WithHead(g, Filled(g, cache, list, cache, n), list);
    OverlaidAt(g, committed, list, onto, n);
    forall b | IsHome(g, |d|, b)
      ensures Overlaid(g, committed, list, onto, n)[b] == cache[b]
    {
      if b in list {
        var i :| 0 <= i < n && list[i] == b;
        assert Logged(g, committed, i) == cache[b];
      }
    }
  }

  /** What commit() leaves on disk and in the cache, in closed form. */
  lemma CommitOutcome(g: Geometry, d: Disk, h: Disk, list: seq<uint>, cache: Disk)
    requires RecoversTo(g, d, h) && HeadIs(g, d, [])
    requires Loggable(g, |d|, list) && IsUpdate(g, h, list, cache)
    ensures var committed := WithHead(g, Filled(g, d, list, cache, |list|), list);
            var seen := WithHead(g, Filled(g, cache, list, cache, |list|), list);
            var e := WithHead(g, Overlaid(g, committed, list, committed, |list|), []);
            && SameHome(g, e, cache) && HeadIs(g, e, [])
            && SameHome(g, WithHead(g, Overlaid(g, committed, list, seen, |list|), []), cache)
  {
    CommitIsAtomic(g, d, h, list, cache, CommitWrites(list));
    CommitLeavesCache(g, d, h, list, cache);
  }

  lemma {:induction false} FilledHome(g: Geometry, d: Disk, list: seq<uint>, cache: Disk, k: nat)
    requires Fits(g, d) && Loggable(g, |d|, list) && |cache| == |d| && k <= |list|
    ensures SameHome(g, Filled(g, d, list, cache, k), d)
  {
    if k > 0 { FilledHome(g, d, list, cache, k - 1); }
  }

  /**
   Recovery may crash too: after any number of its block writes the disk still
   recovers to the same state, and when it completes the home blocks are that
   state and the log is empty.
   */
  lemma RecoveryKeeps(g: Geometry, d: Disk, h: Disk, j: nat)
    requires RecoversTo(g, d, h) && j <= RecoverWrites(g, d)
    ensures RecoversTo(g, RecoverPoint(g, d, j), h)
    ensures j == RecoverWrites(g, d) ==>
              var e := RecoverPoint(g, d, j);
              HeadIs(g, e, []) && SameHome(g, e, h)
  {
    var list := Head(d[g.start]);
    InstalledKeeps(g, d, h, list, if j <= |list| then j else |list|);
    if j == RecoverWrites(g, d) {
      ClearHeadKeeps(g, Installed(g, d, list, |list|), h);
    }
  }

  /** What recovery passes through and leaves on disk, in closed form. */
  lemma RecoverOutcome(g: Geometry, d: Disk, h: Disk, list: seq<uint>)
    requires RecoversTo(g, d, h) && HeadIs(g, d, list)
    ensures var e := WithHead(g, Overlaid(g, d, list, d, |list|), []);
            && RecoverPoints(g, d) == InstalledPoints(g, d, list) + [e]
            && RecoversTo(g, e, h) && SameHome(g, e, h) && HeadIs(g, e, [])
  {
    RecoveryKeeps(g, d, h, RecoverWrites(g, d));
  }

  /** `ds` is a series of reboots, each crashing inside the recovery from the one before. */
  ghost predicate CrashSeries(g: Geometry, ds: seq<Disk>) {
    && (forall i :: 0 <= i < |ds| ==> ValidLog(g, ds[i]))
    && forall i :: 0 < i < |ds| ==> CrashedIn(g, ds[i - 1], ds[i])
  }

  ghost predicate CrashedIn(g: Geometry, d: Disk, e: Disk)
    requires ValidLog(g, d)
  {
    exists j :: 0 <= j <= RecoverWrites(g, d) && e == RecoverPoint(g, d, j)
  }

  /** Any number of crashes during recovery end in the state of the first crash. */
  lemma {:induction false} RepeatedCrashes(g: Geometry, ds: seq<Disk>, h: Disk)
    requires |ds| > 0 && CrashSeries(g, ds) && RecoversTo(g, ds[0], h)
    ensures var d := ds[|ds| - 1];
            && RecoversTo(g, d, h)
            && SameHome(g, RecoverPoint(g, d, RecoverWrites(g, d)), h)
  {
    if |ds| > 1 {
      var d := ds[|ds| - 2];
      RepeatedCrashes(g, ds[..|ds| - 1], h);
      assert CrashedIn(g, d, ds[|ds| - 1]);
      var j :| 0 <= j <= RecoverWrites(g, d) && ds[|ds| - 1] == RecoverPoint(g, d, j);
      RecoveryKeeps(g, d, h, j);
    }
    var d := ds[|ds| - 1];
    RecoveryKeeps(g, d, h, RecoverWrites(g, d));
  }
}
