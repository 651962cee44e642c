/**
 kernel/log.c in the form the source has: the in-memory log updated in place and
 loops that copy one block per iteration. `trace` records the disk after every
 block write, that is, every disk a crash could leave.
 */
module Log {
  import opened Words
  import opened LogCore
  import opened Options

  datatype LogWriteResult = Recorded | TooBig | OutsideTransaction

  /** Blocks listed at position tail or later are pinned. */
  ghost predicate PinnedFrom(pins: seq<nat>, list: seq<uint>, tail: nat)
    requires tail <= |list|
  {
    forall b :: 0 <= b < |pins| ==> pins[b] == if b in list[tail..] then 1 else 0
  }

  lemma UnpinOne(pins: seq<nat>, list: seq<uint>, tail: nat)
    requires tail < |list| && list[tail] < |pins| && PinnedFrom(pins, list, tail)
    requires forall i, j :: 0 <= i < j < |list| ==> list[i] != list[j]
    ensures pins[list[tail]] == 1 && PinnedFrom(pins[list[tail] := 0], list, tail + 1)
  {
    assert list[tail..] == [list[tail]] + list[tail + 1..];
  }

  lemma AllUnpinned(pins: seq<nat>, list: seq<uint>)
    ensures PinnedFrom(pins, list, |list|) ==> pins == seq(|pins|, _ => 0)
  {}

  /** One more disk in the trace. */
  lemma TraceMore(trace: seq<Disk>, points: seq<Disk>, n: nat)
    requires n < |points|
    ensures trace + points[..n] + [points[n]] == trace + points[..n + 1]
  {
    assert points[..n + 1] == points[..n] + [points[n]];
  }

  class RedoLog {
    const g: Geometry
    var lh: seq<uint>             // lh.block[0..lh.n]
    var outstanding: nat
    var disk: Disk
    var cache: Disk               // what bread() returns for each block
    var pins: seq<nat>            // references that the log has on each block's buffer
    ghost var trace: seq<Disk>

    ghost predicate Valid()
      reads this
    {
      && Fits(g, disk) && |cache| == |disk| == |pins|
      && Loggable(g, |disk|, lh)
      && (forall b :: InLog(g, b) ==> cache[b] == disk[b])
    }

    /** The listed blocks are pinned, each once, and no others. */
    ghost predicate Pinned()
      reads this
    {
      forall b :: 0 <= b < |pins| ==> pins[b] == if b in lh then 1 else 0
    }

    /** log_write(): record block b once, at the end of the list and pinned if it is new. */
    method LogWrite(b: uint) returns (r: LogWriteResult)
      requires Valid() && IsHome(g, |disk|, b)
      modifies `lh, `pins
      ensures Valid() && (old(Pinned()) ==> Pinned())
      ensures r == if |old(lh)| >= LOGSIZE || |old(lh)| >= g.size - 1 then TooBig
                   else if outstanding < 1 then OutsideTransaction else Recorded
      ensures lh == if r != Recorded || b in old(lh) then old(lh) else old(lh) + [b]
      ensures pins == if r != Recorded || b in old(lh) then old(pins) else old(pins)[b := old(pins)[b] + 1]
    {
      if |lh| >= LOGSIZE || |lh| >= g.size - 1 {
        return TooBig;
      }
      if outstanding < 1 {
        return OutsideTransaction;
      }
      var i := 0;
      while i < |lh| && lh[i] != b
        invariant i <= |lh| && b !in lh[..i]
      {
        i := i + 1;
      }
      if i == |lh| {
        pins := pins[b := pins[b] + 1];
        ghost var list := lh;
        lh := lh + [b];
        assert forall c :: c in lh <==> c in list || c == b;
      } else {
        assert lh[i := b] == lh;
        lh := lh[i := b];
      }
      return Recorded;
    }

    /** bwrite(): one atomic block write. */
    method BWrite(b: nat, data: Block)
      requires b < |disk| == |cache|
      modifies `disk, `cache, `trace
      ensures disk == old(disk)[b := data] && cache == old(cache)[b := data]
      ensures trace == old(trace) + [disk]
    {
      disk := disk[b := data];
      cache := cache[b := data];
      trace := trace + [disk];
    }

    /** write_log(): copy modified blocks from the cache to the log. */
    method WriteLog()
      requires Valid()
      modifies `disk, `cache, `trace
      ensures Valid()
      ensures cache == Filled(g, old(cache), lh, old(cache), |lh|)
      ensures disk == Filled(g, old(disk), lh, old(cache), |lh|)
      ensures trace == old(trace) + FilledPoints(g, old(disk), lh, old(cache))
    {
      ghost var d, c, list := disk, cache, lh;
      ghost var points := FilledPoints(g, d, list, c);
      var tail := 0;
      while tail < |lh|
        invariant tail <= |lh| && lh == list
        invariant disk == Filled(g, d, list, c, tail) && cache == Filled(g, c, list, c, tail)
        invariant forall b :: InLog(g, b) ==> cache[b] == disk[b]
        invariant trace == old(trace) + points[..tail]
      {
        FilledHome(g, c, list, c, tail);
        assert IsHome(g, |d|, list[tail]);
        BWrite(g.start + tail + 1, cache[lh[tail]]);
        TraceMore(old(trace), points, tail);
        tail := tail + 1;
      }
      assert points[..|lh|] == points;
    }

    /** write_head(): write the in-memory header; the true commit point. */
    method WriteHead()
      requires Valid()
      modifies `disk, `cache, `trace
      ensures Valid()
      ensures cache == WithHead(g, old(cache), lh)
      ensures disk == WithHead(g, old(disk), lh)
      ensures trace == old(trace) + [disk]
    {
      ghost var list := lh;
      assert InLog(g, g.start);
      var hb := SetWord(cache[g.start], 0, |lh|);
      var i := 0;
      while i < |lh|
        invariant i <= |lh|
        invariant hb == PutEntries(SetWord(cache[g.start], 0, |lh|), list, i)
      {
        hb := SetWord(hb, i + 1, lh[i]);
        i := i + 1;
      }
      BWrite(g.start, hb);
    }

    /** install_trans(): copy committed blocks from the log to their homes, and unpin them unless recovering. */
    method InstallTrans(recovering: bool)
      requires Valid() && (recovering || Pinned())
      modifies `disk, `cache, `trace, `pins
      ensures Valid()
      ensures pins == if recovering then old(pins) else seq(|disk|, _ => 0)
      ensures disk == Installed(g, old(disk), lh, |lh|)
      ensures cache == Overlaid(g, old(disk), lh, old(cache), |lh|)
      ensures trace == old(trace) + InstalledPoints(g, old(disk), lh)
    {
      ghost var d, c, pins0, list, points := disk, cache, pins, lh, InstalledPoints(g, disk, lh);
      var tail := 0;
      while tail < |lh|
        invariant tail <= |lh| && lh == list
        invariant Installing(d, c, if recovering then Some(pins0) else None, tail)
        invariant trace == old(trace) + points[..tail]
      {
        InstallOne(tail, recovering, d, c, pins0);
        TraceMore(old(trace), points, tail);
        tail := tail + 1;
      }
      OverlaidAt(g, d, list, c, |lh|);
      OverlaidAt(g, d, list, d, |lh|);
      assert points[..|lh|] == points;
      AllUnpinned(pins, list);
    }

    /** The first `tail` blocks are installed, and unpinned unless the pins are to stay. */
    ghost predicate Installing(d: Disk, c: Disk, stay: Option<seq<nat>>, tail: nat)
      requires Fits(g, d) && |c| == |d| && Loggable(g, |d|, lh) && tail <= |lh|
      reads this
    {
      && disk == Overlaid(g, d, lh, d, tail) && cache == Overlaid(g, d, lh, c, tail) && |pins| == |d|
      && if stay.Some? then pins == stay.value else PinnedFrom(pins, lh, tail)
    }

    method InstallOne(tail: nat, recovering: bool, ghost d: Disk, ghost c: Disk, ghost pins0: seq<nat>)
      requires Fits(g, d) && |c| == |d| && Loggable(g, |d|, lh) && tail < |lh|
      requires forall b :: InLog(g, b) ==> c[b] == d[b]
      requires Installing(d, c, if recovering then Some(pins0) else None, tail)
      modifies `disk, `cache, `trace, `pins
      ensures Installing(d, c, if recovering then Some(pins0) else None, tail + 1)
      ensures trace == old(trace) + [Overlaid(g, d, lh, d, tail + 1)]
    {
      OverlaidAt(g, d, lh, c, tail);
      assert InLog(g, g.start + tail + 1) && IsHome(g, |d|, lh[tail]);
      BWrite(lh[tail], cache[g.start + tail + 1]);
      if !recovering {
        Bunpin(lh[tail], tail);
      }
    }

    /** bunpin() of the block that is listed at `tail`. */
    method Bunpin(b: uint, ghost tail: nat)
      requires tail < |lh| && b == lh[tail] < |pins| && PinnedFrom(pins, lh, tail)
      requires forall i, j :: 0 <= i < j < |lh| ==> lh[i] != lh[j]
      modifies `pins
      ensures |pins| == |old(pins)| && PinnedFrom(pins, lh, tail + 1)
    {
      UnpinOne(pins, lh, tail);
      pins := pins[b := pins[b] - 1];
    }

    /** read_head(): load the header found on disk. */
    method ReadHead()
      requires Fits(g, disk) && |cache| == |disk|
      requires forall b :: InLog(g, b) ==> cache[b] == disk[b]
      requires ValidLog(g, disk) && |pins| == |disk|
      modifies `lh
      ensures Valid() && HeadIs(g, disk, lh)
    {
      var b := cache[g.start];
      assert InLog(g, g.start);
      var n := Word(b, 0);
      lh := [];
      while |lh| < n
        invariant |lh| <= n == |Head(b)|
        invariant lh == Head(b)[..|lh|]
      {
        lh := lh + [Word(b, |lh| + 1)];
      }
    }

    /**
     commit(): every disk it passes through is a commit point of the
     specification, in order, so CommitIsAtomic speaks about each of them.
     */
    method Commit(ghost h: Disk)
      requires Valid() && Pinned()
      requires RecoversTo(g, disk, h) && HeadIs(g, disk, [])
      requires IsUpdate(g, h, lh, cache)
      modifies `disk, `cache, `trace, `lh, `pins
      ensures Valid() && Pinned() && lh == []
      ensures trace == old(trace) + if |old(lh)| == 0 then [] else CommitPoints(g, old(disk), old(lh), old(cache))
      ensures SameHome(g, disk, old(cache)) && SameHome(g, cache, old(cache)) && HeadIs(g, disk, [])
    {
      if |lh| > 0 {
        ghost var d, c, list := disk, cache, lh;
        WriteLog();
        ghost var points := FilledPoints(g, d, list, c);
        WriteHead();
        AppendAssoc(old(trace), points, [disk]);
        points := points + [disk];
        ghost var committed := disk;
        InstallTrans(false);
        AppendAssoc(old(trace), points, InstalledPoints(g, committed, list));
        points := points + InstalledPoints(g, committed, list);
        lh := [];
        WriteHead();
        AppendAssoc(old(trace), points, [disk]);
        CommitPointsSplit(g, d, list, c);
        CommitOutcome(g, d, h, list, c);
      }
    }

    /**
     recover_from_log(): run at boot on whatever disk the crash left. Every disk
     on the way is a recovery point of the specification.
     */
    method Recover(ghost h: Disk)
      requires RecoversTo(g, disk, h)
      requires |cache| == |disk| == |pins|
      requires forall b :: InLog(g, b) ==> cache[b] == disk[b]
      modifies `disk, `cache, `trace, `lh, `pins
      ensures Valid() && lh == [] && pins == old(pins)
      ensures trace == old(trace) + RecoverPoints(g, old(disk))
      ensures SameHome(g, disk, h) && HeadIs(g, disk, [])
    {
      ghost var d := disk;
      ReadHead();
      ghost var list := lh;
      InstallTrans(true);
      assert disk == Overlaid(g, d, list, d, |list|);
      lh := [];
      WriteHead();
      AppendAssoc(old(trace), InstalledPoints(g, d, list), [disk]);
      RecoverOutcome(g, d, h, list);
    }
  }
}
