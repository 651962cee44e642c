/** The ring of kernel/bio.c carries out the cache's steps of the storage machine. */
module CacheSteps {
  import opened Storage
  import Bio

  /** The machine's buffers and the ring's are the same. */
  ghost predicate Shows(s: State, c: Bio.Cache) {
    && |s.bufs| == |c.bufs|
    && forall i :: 0 <= i < |s.bufs| ==>
         c.bufs[i] == Bio.Buf(s.bufs[i].dev, s.bufs[i].blockno, s.bufs[i].valid, s.bufs[i].refcnt)
  }

  /** bget() of a cached block is the machine's hit, and of any other its recycling of an unused buffer. */
  lemma BgetStep(s: State, c: Bio.Cache, blockno: nat, b: nat)
    requires Shows(s, c) && blockno < |s.m.disk| && b < |c.bufs|
    requires Bio.IsFor(c.bufs[b], ROOTDEV, blockno) || (!Bio.IsCached(c, ROOTDEV, blockno) && c.bufs[b].refcnt == 0)
    ensures Bio.IsFor(c.bufs[b], ROOTDEV, blockno) ==>
              Enabled(s, BgetHit(b)) && Shows(Apply(s, BgetHit(b)), Bio.Reference(c, b))
    ensures !Bio.IsFor(c.bufs[b], ROOTDEV, blockno) ==>
              Enabled(s, BgetRecycle(b, blockno))
                  && Shows(Apply(s, BgetRecycle(b, blockno)), Bio.Recycle(c, b, ROOTDEV, blockno))
  {}

  /** The end of brelse() is the machine's dropping of a reference. */
  lemma BrelseStep(s: State, c: Bio.Cache, b: nat)
    requires Shows(s, c) && b < |c.bufs| && Enabled(s, Unref(b))
    ensures c.bufs[b].refcnt > 0 && Shows(Apply(s, Unref(b)), Bio.Drop(c, b))
  {}
}
