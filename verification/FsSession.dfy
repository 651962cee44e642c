/** Sequences of calls on files, as plain byte sequences see them. */
module FsSession {
  import opened Words
  import opened FsLayout
  import opened FsCache
  import opened FsChunks
  import opened FsTruncate

  datatype Request =
    | Put(i: nat, src: seq<byte>, avail: nat, start: uint)
    | Empty(i: nat)
    | Get(i: nat, avail: nat, off: uint, n: uint)
    | Recycle(b: nat) | Absorb(b: nat)

  datatype Reply = Stored(ret: int, done: nat) | Emptied | Got(ret: int, bytes: seq<byte>) | Nothing

  /** The files, and whether the disk is full. */
  datatype View = View(files: seq<File>, full: bool)

  ghost function ViewOf(sb: Super, fs: Fs): View
    requires AllMapped(sb, fs)
  {
    View(Files(sb, fs), Full(fs))
  }

  /** filewrite() counts done bytes and has changed the file up to byte reach: all it should, if the disk allows. */
  ghost predicate Stores(v: View, i: nat, start: nat, src: seq<byte>, avail: nat, done: nat, reach: nat, v': View)
    requires i < |v.files|
  {
    && done <= reach <= |src| && FileStops(v'.full, |v.files[i].content|, start, |src|, avail, done, reach)
    && v'.files == WriteFile(v.files, i, start, src[..reach], done)
  }

  /** A call takes the files from one state to the next; recycling a buffer may bring back an older block. */
  ghost predicate Serves(v: View, req: Request, reply: Reply, v': View) {
    match req
    case Put(i, src, avail, start) =>
      && i < |v.files| && reply.Stored? && reply.ret == (if reply.done == |src| then |src| else -1)
      && exists reach: nat :: Stores(v, i, start, src, avail, reply.done, reach, v')
    case Empty(i) => i < |v.files| && reply == Emptied && v'.files == v.files[i := v.files[i].(content := [])]
    case Get(i, avail, off, n) =>
      i < |v.files| && v' == v && reply.Got? && ReadAs(v.files[i].content, avail, off, n, reply.ret, reply.bytes)
    case Recycle(_) => OneBlockBack(v.files, v'.files) && v'.full == v.full
    case Absorb(_) => v' == v
  }

  /** The request is one the kernel can be asked. */
  predicate Answerable(n: nat, req: Request) {
    match req
    case Put(i, src, _, _) => i < n && |src| < 0x8000_0000
    case Empty(i) => i < n
    case Get(i, _, _, _) => i < n
    case _ => true
  }

  /** The source of a write can all be read. */
  predicate Clean(req: Request) { req.Put? ==> req.avail >= |req.src| }

  predicate AllClean(requests: seq<Request>) { forall k :: 0 <= k < |requests| ==> Clean(requests[k]) }

  // ----- transactions of a call -----

  /** After some transaction of the call: a write may be done in part, anything else is done. */
  ghost predicate Midway(sb: Super, fs: Fs, v: View, req: Request) {
    && AllMapped(sb, fs)
    && match req
       case Put(i, src, _, start) => i < |v.files| && exists d: nat :: PartAt(sb, fs, d, v.files, i, start, src)
       case Empty(i) => i < |v.files| && Files(sb, fs) == v.files[i := v.files[i].(content := [])]
       case _ => Files(sb, fs) == v.files
  }

  ghost predicate AllMidway(sb: Super, txs: seq<Tx>, v: View, req: Request) {
    forall c :: 0 <= c < |txs| ==> Midway(sb, txs[c].after, v, req)
  }

  lemma WriteMidway(sb: Super, v0: Fs, p: Progress, v: View, req: Request, last: Fs)
    requires req.Put? && req.i < |v.files|
    requires ChunkHistory(sb, v0, p.txs, p.marks, true, v.files, req.i, req.start, req.src, last)
    ensures AllMidway(sb, p.txs, v, req)
  {
    forall c | 0 <= c < |p.txs|
      ensures Midway(sb, p.txs[c].after, v, req)
    {
      assert PartAt(sb, p.txs[c].after, p.marks[c], v.files, req.i, req.start, req.src);
    }
  }

  /** A call does to the files what it should, in transactions that log all they change. */
  ghost predicate Answered(sb: Super, fs: Fs, stale: map<nat, Block>, req: Request, reply: Reply, txs: seq<Tx>, fs': Fs,
                           stale': map<nat, Block>)
    requires AllMapped(sb, fs) && AllMapped(sb, fs')
  {
    && Serves(ViewOf(sb, fs), req, reply, ViewOf(sb, fs'))
    && History(sb, Settled(fs, stale), txs) && Last(Settled(fs, stale), txs) == Settled(fs', stale')
    && (Span(sb) < MAXOPBLOCKS ==> SmallTxs(txs))
    && (stale == map[] && Clean(req) ==>
          stale' == map[] && (req.Recycle? ==> fs' == fs) && AllMidway(sb, txs, ViewOf(sb, fs), req))
  }

  /** What filewrite() ensures makes it an answer. */
  lemma WriteAnswers(sb: Super, fs: Fs, stale: map<nat, Block>, i: nat, src: seq<byte>, avail: nat, start: uint,
                     ret: int,
                     p: Progress, fs': Fs, stale': map<nat, Block>)
    requires AllMapped(sb, fs) && AllMapped(sb, fs') && i < |fs.inodes|
    requires p.done <= p.reach <= |src| && ret == if p.done == |src| then |src| else -1
    requires FileStops(Full(fs'), |Files(sb, fs)[i].content|, start, |src|, avail, p.done, p.reach)
    requires Files(sb, fs') == WriteFile(Files(sb, fs), i, start, src[..p.reach], p.done)
    requires stale == map[] && avail >= |src| ==> stale' == map[]
    requires ChunkHistory(sb, Settled(fs, stale), p.txs, p.marks, stale == map[], Files(sb, fs), i, start, src,
                          Settled(fs', stale'))
    ensures Answered(sb, fs, stale, Put(i, src, avail, start), Stored(ret, p.done), p.txs, fs', stale')
  {
    assert Stores(ViewOf(sb, fs), i, start, src, avail, p.done, p.reach, ViewOf(sb, fs'));
    if stale == map[] {
      WriteMidway(sb, Settled(fs, stale), p, ViewOf(sb, fs), Put(i, src, avail, start), Settled(fs', stale'));
    }
  }

  /** A call that is one transaction. */
  lemma OneCall(sb: Super, v: Fs, fs: Fs, owner: map<nat, Slot>, stale: map<nat, Block>, logged: set<nat>, view: View,
                req: Request)
      returns (txs: seq<Tx>)
    requires FsInv(sb, fs, owner) && StaleOk(sb, fs, owner, stale) && RecordedAll(sb, v, Settled(fs, stale), logged)
    ensures History(sb, v, txs) && Last(v, txs) == Settled(fs, stale) && (|logged| <= MAXOPBLOCKS ==> SmallTxs(txs))
    ensures stale == map[] && Midway(sb, fs, view, req) ==> AllMidway(sb, txs, view, req)
  {
    SettledInv(sb, fs, owner, stale);
    if |fs.data| > 0 { SettledOne(fs, 0, ZeroBlock()); }
    var tx := Tx(Settled(fs, stale), logged);
    OneTx(sb, v, tx);
    txs := [tx];
  }

  /** The transactions of several calls, one after the other. */
  function Flat(spans: seq<seq<Tx>>): seq<Tx> {
    if spans == [] then [] else Flat(spans[..|spans| - 1]) + spans[|spans| - 1]
  }

  /** How many transactions the first k calls take. */
  function Before(spans: seq<seq<Tx>>, k: nat): nat
    requires k <= |spans|
  {
    |Flat(spans[..k])|
  }

  lemma BeforeNext(spans: seq<seq<Tx>>, k: nat)
    requires k < |spans|
    ensures Before(spans, k + 1) == Before(spans, k) + |spans[k]|
  {
    assert spans[..k + 1][..k] == spans[..k];
  }

  /** Each transaction belongs to a call. */
  lemma {:induction false} FlatAt(spans: seq<seq<Tx>>, c: nat) returns (k: nat, j: nat)
    requires c < |Flat(spans)|
    ensures k < |spans| && j < |spans[k]| && Flat(spans)[c] == spans[k][j] && Before(spans, k) + j == c
  {
    var n := |spans| - 1;
    if c < |Flat(spans[..n])| {
      k, j := FlatAt(spans[..n], c);
      assert spans[..n][..k] == spans[..k];
    } else {
      k, j := n, c - |Flat(spans[..n])|;
    }
  }

  // ----- many calls -----

  /** A session so far: the view after each call, and the transactions of each. */
  datatype Run = Run(replies: seq<Reply>, trace: seq<View>, spans: seq<seq<Tx>>)

  ghost predicate ServedAt(requests: seq<Request>, run: Run, k: nat)
    requires k < |requests| == |run.replies| < |run.trace|
  {
    Serves(run.trace[k], requests[k], run.replies[k], run.trace[k + 1])
  }

  /** Each request is served, one after the other. */
  ghost predicate IsTrace(v: View, requests: seq<Request>, run: Run, v': View) {
    && |run.replies| == |requests| == |run.spans| && |run.trace| == |requests| + 1
    && run.trace[0] == v && run.trace[|requests|] == v'
    && forall k :: 0 <= k < |requests| ==> ServedAt(requests, run, k)
  }

  /** After its last transaction a call is done. */
  ghost predicate Lands(sb: Super, txs: seq<Tx>, v: View, v': View) {
    if txs == [] then v'.files == v.files
    else var fs := txs[|txs| - 1].after; AllMapped(sb, fs) && Files(sb, fs) == v'.files
  }

  /** Recycling a buffer changes nothing; each transaction leaves a part of its call done, and the last all of it. */
  ghost predicate TidyAt(sb: Super, requests: seq<Request>, run: Run, k: nat)
    requires k < |requests| == |run.spans| < |run.trace|
  {
    && (requests[k].Recycle? ==> run.trace[k + 1] == run.trace[k])
    && AllMidway(sb, run.spans[k], run.trace[k], requests[k]) && Lands(sb, run.spans[k], run.trace[k], run.trace[k + 1])
  }

  ghost predicate Tidy(sb: Super, requests: seq<Request>, run: Run)
    requires |run.trace| == |requests| + 1 && |run.spans| == |requests|
  {
    forall k :: 0 <= k < |requests| ==> TidyAt(sb, requests, run, k)
  }

  function Extend(run: Run, reply: Reply, v: View, txs: seq<Tx>): Run {
    Run(run.replies + [reply], run.trace + [v], run.spans + [txs])
  }

  lemma TraceMore(v: View, requests: seq<Request>, n: nat, run: Run, before: View, reply: Reply, after: View,
                  txs: seq<Tx>)
    requires n < |requests| && IsTrace(v, requests[..n], run, before) && Serves(before, requests[n], reply, after)
    ensures IsTrace(v, requests[..n + 1], Extend(run, reply, after, txs), after)
  {
    var rs, run' := requests[..n + 1], Extend(run, reply, after, txs);
    forall k | 0 <= k < |rs|
      ensures ServedAt(rs, run', k)
    {
      if k < n { assert ServedAt(requests[..n], run, k); }
    }
  }

  lemma TidyMore(sb: Super, v: View, requests: seq<Request>, n: nat, run: Run, before: View, reply: Reply, after: View,
                 txs: seq<Tx>)
    requires n < |requests| && IsTrace(v, requests[..n], run, before) && Tidy(sb, requests[..n], run)
    requires (requests[n].Recycle? ==> after == before) && AllMidway(sb, txs, before, requests[n])
    requires Lands(sb, txs, before, after)
    ensures Tidy(sb, requests[..n + 1], Extend(run, reply, after, txs))
  {
    var rs, run' := requests[..n + 1], Extend(run, reply, after, txs);
    forall k | 0 <= k < |rs|
      ensures TidyAt(sb, rs, run', k)
    {
      if k < n { assert TidyAt(sb, requests[..n], run, k); }
    }
  }

  lemma CallLands(sb: Super, fs: Fs, txs: seq<Tx>, fs': Fs)
    requires AllMapped(sb, fs) && AllMapped(sb, fs') && Last(Settled(fs, map[]), txs) == Settled(fs', map[])
    ensures Lands(sb, txs, ViewOf(sb, fs), ViewOf(sb, fs'))
  {
    assert Settled(fs, map[]) == fs && Settled(fs', map[]) == fs';
  }

  lemma HistoryMore(sb: Super, v0: Fs, spans: seq<seq<Tx>>, v: Fs, txs: seq<Tx>)
    requires History(sb, v0, Flat(spans)) && Last(v0, Flat(spans)) == v && History(sb, v, txs)
    ensures History(sb, v0, Flat(spans + [txs])) && Last(v0, Flat(spans + [txs])) == Last(v, txs)
    ensures SmallTxs(Flat(spans)) && SmallTxs(txs) ==> SmallTxs(Flat(spans + [txs]))
  {
    assert (spans + [txs])[..|spans|] == spans;
    HistoryJoin(sb, v0, Flat(spans), txs);
  }

  // ----- sessions cut off -----

  /**
   fs has the files after c transactions of a session: those from before it if c is 0, and else
   those that transaction c left, all of its call k done if it is the last of it, and a part if it is a write.
   */
  ghost predicate CutOff(sb: Super, requests: seq<Request>, run: Run, c: nat, k: nat, fs: Fs)
    requires |run.trace| == |requests| + 1 && |run.spans| == |requests|
  {
    && AllMapped(sb, fs)
    && if c == 0 then Files(sb, fs) == run.trace[0].files
       else
         && k < |requests| && Before(run.spans, k) < c <= Before(run.spans, k + 1)
         && Midway(sb, fs, run.trace[k], requests[k])
         && (c == Before(run.spans, k + 1) ==> Files(sb, fs) == run.trace[k + 1].files)
  }

  lemma CutOffAt(sb: Super, v0: Fs, requests: seq<Request>, run: Run, v': View, c: nat, fs: Fs) returns (k: nat)
    requires AllMapped(sb, v0) && IsTrace(ViewOf(sb, v0), requests, run, v') && Tidy(sb, requests, run)
    requires c <= |Flat(run.spans)| && AllMapped(sb, VersionAt(v0, Flat(run.spans), c)) && AllMapped(sb, fs)
    requires Files(sb, fs) == Files(sb, VersionAt(v0, Flat(run.spans), c))
    ensures CutOff(sb, requests, run, c, k, fs)
  {
    k := 0;
    if c > 0 {
      var j, c0: nat := 0, c - 1;
      k, j := FlatAt(run.spans, c0);
      BeforeNext(run.spans, k);
      assert TidyAt(sb, requests, run, k);
      assert VersionAt(v0, Flat(run.spans), c) == run.spans[k][j].after;
      CutOffIn(sb, requests, run, c, k, j, fs);
    }
  }

  lemma CutOffIn(sb: Super, requests: seq<Request>, run: Run, c: nat, k: nat, j: nat, fs: Fs)
    requires |run.trace| == |requests| + 1 && |run.spans| == |requests| && k < |requests| && j < |run.spans[k]|
    requires TidyAt(sb, requests, run, k) && AllMapped(sb, fs) && AllMapped(sb, run.spans[k][j].after)
    requires Files(sb, fs) == Files(sb, run.spans[k][j].after)
    requires c == Before(run.spans, k) + j + 1 && Before(run.spans, k + 1) == Before(run.spans, k) + |run.spans[k]|
    ensures CutOff(sb, requests, run, c, k, fs)
  {
    MidwayOn(sb, run.spans[k][j].after, fs, run.trace[k], requests[k]);
  }

  /** Where a call stands is a matter of the files. */
  lemma MidwayOn(sb: Super, fs: Fs, fs': Fs, v: View, req: Request)
    requires Midway(sb, fs, v, req) && AllMapped(sb, fs') && Files(sb, fs') == Files(sb, fs)
    ensures Midway(sb, fs', v, req)
  {
    if req.Put? {
      var d: nat :| PartAt(sb, fs, d, v.files, req.i, req.start, req.src);
      assert PartAt(sb, fs', d, v.files, req.i, req.start, req.src);
    }
  }
}
