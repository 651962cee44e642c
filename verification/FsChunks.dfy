/** The chunks of filewrite() in kernel/file.c: each is a transaction of its own. */
module FsChunks {
  import opened Words
  import opened FsLayout
  import opened FsCache

  /** The files with src[..reach] written over them, of which done bytes count; in the log, it is just those. */
  ghost predicate Advanced(sb: Super, fs: Fs, stale: map<nat, Block>, stale0: map<nat, Block>, files: seq<File>,
                           i: nat, start: nat,
                           src: seq<byte>, avail: nat, done: nat, reach: nat)
    requires AllMapped(sb, fs) && i < |files|
  {
    && done <= reach <= |src| && Files(sb, fs) == WriteFile(files, i, start, src[..reach], done)
    && (stale0 == map[] ==> LoggedAs(sb, fs, stale, WriteFile(files, i, start, src[..done], done)))
    && (avail >= |src| ==> reach == done)
  }

  lemma PieceAdvances(sb: Super, fs0: Fs, stale0: map<nat, Block>, fs: Fs, stale: map<nat, Block>, files: seq<File>,
                      i: nat, start: nat,
                      src: seq<byte>, avail: nat, k: nat, n1: nat, at: nat, piece: seq<byte>, left: nat, r: nat,
                            more: nat, done: nat, reach: nat)
    requires AllMapped(sb, fs0) && AllMapped(sb, fs) && i < |files| == |fs0.inodes| && k + n1 <= |src| && 0 < n1
    requires Files(sb, fs0) == WriteFile(files, i, start, src[..k], k) && (k > 0 ==> start <= |files[i].content|)
    requires at == start + k && piece == src[k..k + n1] && left == avail - k && at <= fs0.inodes[i].size
    requires Wrote(sb, fs0, stale0, fs, stale, i, at, piece, left, r, more) && done == k + r && reach == k + more
    ensures Advanced(sb, fs, stale, stale0, files, i, start, src, avail, done, reach) && start <= |files[i].content|
    ensures (r == n1 ==> reach == done) && (stale0 == map[] && (r == n1 || avail >= |src|) ==> stale == map[])
  {
    assert |Files(sb, fs0)[i].content| == fs0.inodes[i].size;
    PieceWritten(files, Files(sb, fs0), i, start, src, k, n1, at, piece, r, more, done, reach);
    PieceWritten(files, Files(sb, fs0), i, start, src, k, n1, at, piece, r, r, done, done);
  }

  lemma NoAdvance(sb: Super, fs: Fs, stale: map<nat, Block>, files: seq<File>, i: nat, start: nat, src: seq<byte>,
                  avail: nat, k: nat)
    requires AllMapped(sb, fs) && i < |files| && k <= |src| && Files(sb, fs) == WriteFile(files, i, start, src[..k], k)
    ensures Advanced(sb, fs, stale, stale, files, i, start, src, avail, k, k)
  {
    SettledOne(fs, 0, ZeroBlock());
  }

  // ----- how much filewrite() writes -----

  const CHUNK := (MAXOPBLOCKS - 1 - 1 - 2) / 2 * BSIZE
  const LIMIT := MAXFILE * BSIZE

  /** Of n bytes at offset start, those in chunks that end within the largest possible file. */
  function Accepted(start: nat, n: nat): nat {
    if start + n <= LIMIT then n else if start > LIMIT then 0 else (LIMIT - start) / CHUNK * CHUNK
  }

  /** Of avail bytes, those before the last boundary of a block or a chunk. */
  function ChunkBoundary(start: nat, avail: nat): nat {
    var k := avail / CHUNK * CHUNK;
    k + Boundary(start + k, avail - k)
  }

  datatype Extent = Extent(done: nat, reach: nat)

  /** How many bytes count as written, and how far the file is changed, if the disk does not fill up. */
  function Wanted(size: nat, start: nat, n: nat, avail: nat): Extent {
    if start > size then Extent(0, 0)
    else if avail >= Accepted(start, n) then Extent(Accepted(start, n), Accepted(start, n))
    else Extent(ChunkBoundary(start, avail), avail)
  }

  /** A write is as wanted, or the disk is full at a block the file does not have. */
  ghost predicate FileStops(full: bool, size: nat, start: nat, n: nat, avail: nat, done: nat, reach: nat) {
    || Extent(done, reach) == Wanted(size, start, n, avail)
    || (full && done == reach <= Wanted(size, start, n, avail).done && start + done >= size)
  }

  /** What became of the chunk of n1 bytes at offset at, when the file had `size` bytes. */
  ghost predicate ChunkStops(fs: Fs, size: nat, at: nat, n1: nat, left: nat, r: int, more: nat) {
    if r == -1 then more == 0 && (at > size || at + n1 > LIMIT)
    else 0 <= r && at <= size && at + n1 <= LIMIT && StopsAt(fs, size, at, n1, left, r, more)
  }

  /** Whole chunks so far, all of them accepted. */
  predicate WholeChunks(start: nat, n: nat, avail: nat, k: nat) {
    k <= avail && k <= Accepted(start, n) && (k % CHUNK == 0 || k == n)
  }

  lemma AcceptedBound(start: nat, n: nat)
    ensures Accepted(start, n) <= n
  {}

  lemma ChunkOf(x: nat, k: nat)
    requires k % CHUNK == 0 && k <= x < k + CHUNK
    ensures x / CHUNK * CHUNK == k
  {
    var q := k / CHUNK;
    assert k == q * CHUNK && q * CHUNK <= x < (q + 1) * CHUNK;
    assert x / CHUNK == q;
  }

  lemma ChunkBelow(x: nat, k: nat)
    requires k % CHUNK == 0 && k + CHUNK <= x
    ensures k + CHUNK <= x / CHUNK * CHUNK
  {
    var q := k / CHUNK;
    assert k == q * CHUNK && (q + 1) * CHUNK <= x;
    assert q + 1 <= x / CHUNK;
    assert (q + 1) * CHUNK <= x / CHUNK * CHUNK;
  }

  lemma ChunkAligned(k: nat)
    requires k % CHUNK == 0
    ensures (k + CHUNK) % CHUNK == 0
  {}

  /** The chunk after k bytes is accepted if it ends within the largest file, and then there may be more. */
  lemma ChunkFits(start: nat, n: nat, k: nat, n1: nat)
    requires k % CHUNK == 0 && k < n && n1 == Min(n - k, CHUNK) && start + k + n1 <= LIMIT
    ensures k + n1 <= Accepted(start, n)
  {
    if start + n > LIMIT { ChunkBelow(LIMIT - start, k); }
  }

  lemma ChunkTooLong(start: nat, n: nat, k: nat, n1: nat)
    requires k % CHUNK == 0 && k < n && n1 == Min(n - k, CHUNK) && k <= Accepted(start, n)
    requires start + k + n1 > LIMIT
    ensures k == Accepted(start, n)
  {
    if start <= LIMIT { ChunkOf(LIMIT - start, k); }
  }

  /** Where the chunk that is refused leaves the write. */
  lemma RefusedChunk(full: bool, size0: nat, size: nat, start: nat, n: nat, avail: nat, k: nat, n1: nat)
    requires WholeChunks(start, n, avail, k) && k < n && n1 == Min(n - k, CHUNK)
    requires (k > 0 ==> start <= size0) && size == (if start <= size0 then Max(size0, start + k) else size0)
    requires start + k > size || start + k + n1 > LIMIT
    ensures FileStops(full, size0, start, n, avail, k, k)
  {
    AcceptedBound(start, n);
    if start <= size0 { ChunkTooLong(start, n, k, n1); }
  }

  /** Where the chunk that comes out short leaves it. */
  lemma ShortChunk(fs: Fs, size0: nat, size: nat, start: nat, n: nat, avail: nat, k: nat, n1: nat, r: nat, more: nat,
                   at: nat, left: nat, done: nat, reach: nat)
    requires WholeChunks(start, n, avail, k) && k < n && n1 == Min(n - k, CHUNK) && r != n1
    requires (k > 0 ==> start <= size0) && size == (if start <= size0 then Max(size0, start + k) else size0)
    requires at == start + k && left == avail - k && at <= size && at + n1 <= LIMIT
    requires StopsAt(fs, size, at, n1, left, r, more) && done == k + r && reach == k + more
    ensures FileStops(Full(fs), size0, start, n, avail, done, reach)
  {
    AcceptedBound(start, n);
    ChunkFits(start, n, k, n1);
    BoundaryLast(at, left, 0);
    if more == r && Full(fs) && (r == 0 || (at + r) % BSIZE == 0) && r <= left {
      FullChunk(start, n, avail, k, n1, r);
    } else {
      ChunkOf(avail, k);
    }
  }

  /** Where the chunk that comes out short, or is refused, leaves the write. */
  lemma LastChunk(fs: Fs, size0: nat, size: nat, start: nat, n: nat, avail: nat, k: nat, n1: nat, r: int, more: nat,
                  done: nat, reach: nat)
    requires WholeChunks(start, n, avail, k) && k < n && n1 == Min(n - k, CHUNK) && r != n1
    requires (k > 0 ==> start <= size0) && size == (if start <= size0 then Max(size0, start + k) else size0)
    requires ChunkStops(fs, size, start + k, n1, avail - k, r, more)
    requires done == (if r > 0 then k + r else k) && reach == k + more
    ensures FileStops(Full(fs), size0, start, n, avail, done, reach)
  {
    if r == -1 {
      RefusedChunk(Full(fs), size0, size, start, n, avail, k, n1);
    } else {
      ShortChunk(fs, size0, size, start, n, avail, k, n1, r, more, start + k, avail - k, done, reach);
    }
  }

  /** A disk that is full stops a write no later than it would stop otherwise. */
  lemma FullChunk(start: nat, n: nat, avail: nat, k: nat, n1: nat, r: nat)
    requires WholeChunks(start, n, avail, k) && k < n && n1 == Min(n - k, CHUNK) && r < n1 && r <= avail - k
    requires start + k + n1 <= LIMIT && (r == 0 || (start + k + r) % BSIZE == 0)
    ensures k + r <= if avail >= Accepted(start, n) then Accepted(start, n) else ChunkBoundary(start, avail)
  {
    ChunkFits(start, n, k, n1);
    if avail < Accepted(start, n) {
      if avail < k + CHUNK {
        ChunkOf(avail, k);
        BoundaryLast(start + k, avail - k, r);
      } else {
        LaterChunk(start, avail, k, n1);
      }
    }
  }

  lemma LaterChunk(start: nat, avail: nat, k: nat, n1: nat)
    requires k % CHUNK == 0 && k + CHUNK <= avail && n1 <= CHUNK
    ensures k + n1 <= ChunkBoundary(start, avail)
  {
    ChunkBelow(avail, k);
  }

  /** Where filewrite() is after k bytes in whole chunks, done bytes in all, or when one has come out short. */
  ghost predicate Chunked(sb: Super, fs: Fs, stale: map<nat, Block>, stale0: map<nat, Block>, files: seq<File>, i: nat,
                          start: nat, src: seq<byte>, avail: nat, k: nat, done: nat, reach: nat, more: bool)
    requires AllMapped(sb, fs) && i < |files| && k <= |src|
  {
    && k <= done && Advanced(sb, fs, stale, stale0, files, i, start, src, avail, done, reach)
    && (done > 0 ==> start <= |files[i].content| && start + done <= LIMIT)
    && (stale0 == map[] && (more || avail >= |src|) ==> stale == map[])
    && if more then reach == done == k && WholeChunks(start, |src|, avail, k)
       else done < |src| && FileStops(Full(fs), |files[i].content|, start, |src|, avail, done, reach)
  }

  lemma ChunkedNext(sb: Super, fs: Fs, stale: map<nat, Block>, stale0: map<nat, Block>, files: seq<File>, i: nat,
                    start: nat, src: seq<byte>, avail: nat, k: nat, n1: nat, size: nat, r: int, more: nat,
                    done: nat, reach: nat, go: bool, k': nat)
    requires AllMapped(sb, fs) && i < |files| && k < |src| && n1 == Min(|src| - k, CHUNK)
    requires WholeChunks(start, |src|, avail, k) && (k > 0 ==> start <= |files[i].content|)
    requires var c := |files[i].content|; size == if start <= c then Max(c, start + k) else c
    requires ChunkStops(fs, size, start + k, n1, avail - k, r, more)
    requires done == (if r > 0 then k + r else k) && reach == k + more && (k > 0 ==> start + k <= LIMIT)
    requires Advanced(sb, fs, stale, stale0, files, i, start, src, avail, done, reach)
    requires stale0 == map[] && (r == n1 || avail >= |src|) ==> stale == map[]
    requires go == (r == n1) && k' == if go then k + n1 else k
    ensures k' <= |src| && Chunked(sb, fs, stale, stale0, files, i, start, src, avail, k', done, reach, go)
  {
    AcceptedBound(start, |src|);
    if go { ChunkFits(start, |src|, k, n1); ChunkAligned(k); } else { LastChunk(fs, |files[i].content|, size, start,
          |src|, avail, k, n1, r, more, done, reach); }
  }

  /** The size of the file after k bytes. */
  lemma SizeNow(sb: Super, fs: Fs, files: seq<File>, i: nat, start: nat, src: seq<byte>, k: nat)
    requires AllMapped(sb, fs) && i < |files| == |fs.inodes| && k <= |src|
    requires Files(sb, fs) == WriteFile(files, i, start, src[..k], k)
    ensures var c := |files[i].content|; fs.inodes[i].size == if start <= c then Max(c, start + k) else c
  {
    assert |Files(sb, fs)[i].content| == fs.inodes[i].size;
  }

  // ----- transactions -----

  /** Every block has one owner, and every file its blocks. */
  ghost predicate Sound(sb: Super, fs: Fs) { exists owner :: FsInv(sb, fs, owner) }

  /** A transaction: the file system after it, as it is in the log, and the blocks it logged. */
  datatype Tx = Tx(after: Fs, logged: set<nat>)

  ghost function VersionAt(v0: Fs, txs: seq<Tx>, c: nat): Fs
    requires c <= |txs|
  {
    if c == 0 then v0 else txs[c - 1].after
  }

  ghost predicate TxOk(sb: Super, v0: Fs, txs: seq<Tx>, c: nat)
    requires c < |txs|
  {
    RecordedAll(sb, VersionAt(v0, txs, c), txs[c].after, txs[c].logged) && Sound(sb, txs[c].after)
  }

  /** Each transaction logged all that it changed. */
  ghost predicate History(sb: Super, v0: Fs, txs: seq<Tx>) {
    forall c :: 0 <= c < |txs| ==> TxOk(sb, v0, txs, c)
  }

  ghost function Last(v0: Fs, txs: seq<Tx>): Fs { VersionAt(v0, txs, |txs|) }

  lemma HistoryJoin(sb: Super, v0: Fs, txs: seq<Tx>, txs': seq<Tx>)
    requires History(sb, v0, txs) && History(sb, Last(v0, txs), txs')
    ensures History(sb, v0, txs + txs') && Last(v0, txs + txs') == Last(Last(v0, txs), txs')
  {
    forall c | 0 <= c < |txs + txs'|
      ensures TxOk(sb, v0, txs + txs', c)
    {
      if c < |txs| { assert TxOk(sb, v0, txs, c); } else { assert TxOk(sb, Last(v0, txs), txs', c - |txs|); }
    }
  }

  lemma OneTx(sb: Super, v: Fs, tx: Tx)
    requires RecordedAll(sb, v, tx.after, tx.logged) && Sound(sb, tx.after)
    ensures History(sb, v, [tx]) && Last(v, [tx]) == tx.after
  {
    assert TxOk(sb, v, [tx], 0);
  }

  ghost predicate SmallTxs(txs: seq<Tx>) { forall c :: 0 <= c < |txs| ==> |txs[c].logged| <= MAXOPBLOCKS }

  /** After transaction c, the first marks[c] bytes of src have been written. */
  ghost predicate PartWritten(sb: Super, txs: seq<Tx>, marks: seq<nat>, files: seq<File>, i: nat, start: nat,
                              src: seq<byte>)
    requires i < |files|
  {
    && |marks| == |txs|
    && forall c :: 0 <= c < |txs| ==> PartAt(sb, txs[c].after, marks[c], files, i, start, src)
  }

  ghost predicate PartAt(sb: Super, v: Fs, d: nat, files: seq<File>, i: nat, start: nat, src: seq<byte>)
    requires i < |files|
  {
    d <= |src| && AllMapped(sb, v) && Files(sb, v) == WriteFile(files, i, start, src[..d], d)
  }

  /** The transactions of filewrite() so far. */
  ghost predicate ChunkHistory(sb: Super, v0: Fs, txs: seq<Tx>, marks: seq<nat>, clean: bool, files: seq<File>, i: nat,
                               start: nat, src: seq<byte>, v: Fs)
    requires i < |files|
  {
    && History(sb, v0, txs) && SmallTxs(txs) && Last(v0, txs) == v && |marks| == |txs|
    && (clean ==> PartWritten(sb, txs, marks, files, i, start, src))
  }

  lemma ChunkHistoryMore(sb: Super, v0: Fs, txs: seq<Tx>, marks: seq<nat>, clean: bool, files: seq<File>, i: nat,
                         start: nat, src: seq<byte>, v: Fs, tx: Tx, d: nat)
    requires i < |files| && ChunkHistory(sb, v0, txs, marks, clean, files, i, start, src, v)
    requires RecordedAll(sb, v, tx.after, tx.logged) && Sound(sb, tx.after) && |tx.logged| <= MAXOPBLOCKS
    requires clean ==> PartAt(sb, tx.after, d, files, i, start, src)
    ensures ChunkHistory(sb, v0, txs + [tx], marks + [d], clean, files, i, start, src, tx.after)
  {
    OneTx(sb, v, tx);
    HistoryJoin(sb, v0, txs, [tx]);
  }

  /** The bytes that count so far, those changed, the transactions, and what counted after each. */
  datatype Progress = Progress(done: nat, reach: nat, txs: seq<Tx>, marks: seq<nat>)

  ghost predicate InProgress(sb: Super, fs: Fs, stale: map<nat, Block>, stale0: map<nat, Block>, v0: Fs,
                             files: seq<File>, i: nat, start: nat, src: seq<byte>, avail: nat, k: nat, p: Progress,
                             more: bool)
    requires AllMapped(sb, fs) && i < |files| && k <= |src|
  {
    && Chunked(sb, fs, stale, stale0, files, i, start, src, avail, k, p.done, p.reach, more)
    && ChunkHistory(sb, v0, p.txs, p.marks, stale0 == map[], files, i, start, src, Settled(fs, stale))
  }

  lemma NotBegun(sb: Super, fs: Fs, stale: map<nat, Block>, files: seq<File>, i: nat, start: nat, src: seq<byte>,
                 avail: nat)
    requires AllMapped(sb, fs) && i < |files| && Files(sb, fs) == files
    ensures InProgress(sb, fs, stale, stale, Settled(fs, stale), files, i, start, src, avail, 0,
                       Progress(0, 0, [], []), true)
  {
    WriteFileNothing(files, i, start);
    assert src[..0] == [];
    NoAdvance(sb, fs, stale, files, i, start, src, avail, 0);
  }

  /** What holds when filewrite() is done. */
  lemma ProgressEnds(sb: Super, fs: Fs, stale: map<nat, Block>, stale0: map<nat, Block>, v0: Fs, files: seq<File>,
                     i: nat, start: nat, src: seq<byte>, avail: nat, k: nat, p: Progress, more: bool)
    requires AllMapped(sb, fs) && i < |files| && k <= |src| && (more ==> k == |src|)
    requires InProgress(sb, fs, stale, stale0, v0, files, i, start, src, avail, k, p, more)
    ensures FileStops(Full(fs), |files[i].content|, start, |src|, avail, p.done, p.reach)
    ensures k == |src| <==> p.done == |src|
  {
    AcceptedBound(start, |src|);
  }
}
