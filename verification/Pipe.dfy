/**
 kernel/pipe.c: readers and writers that hold pi->lock from one sleep to the next.
 A turn is what pipewrite() or piperead() does between acquiring the lock and
 sleeping or returning; turns of any threads follow each other in any order.
 */
module Pipe {
  import opened Words

  const PIPESIZE := 512
  const TWO32 := 0x1_0000_0000

  /** The ring and its 32-bit counters; `stored` are all bytes ever written, `consumed` how many were ever read. */
  datatype P = P(data: seq<byte>, nread: nat, nwrite: nat, readopen: bool, writeopen: bool,
                 ghost stored: seq<byte>, ghost consumed: nat)

  datatype Outcome = Done | Sleeps | Fails

  /** A turn of some thread, with what it asks for. */
  datatype Turn =
    | Writer(src: seq<byte>, avail: nat, i: nat, kill: nat)
    | Reader(n: nat, avail: nat, killed: bool)
    | Closer(writable: bool)

  // ----- a pipe as a queue -----

  /** The bytes that wait, and which ends are open. */
  datatype Queue = Queue(waiting: seq<byte>, readopen: bool, writeopen: bool)

  /** How a turn ends: how many bytes are written now, the bytes read, or whether the pipe is to be freed. */
  datatype Reply = Wrote(o: Outcome, i: nat) | Read(o: Outcome, out: seq<byte>) | Closed(free: bool)

  predicate TurnOk(turn: Turn) { turn.Writer? ==> turn.i <= |turn.src| && turn.i <= turn.avail }

  /** How many bytes are written after a turn: as many as there are, can be read and find room, until killed. */
  function WrittenTo(q: Queue, src: seq<byte>, avail: nat, i: nat, kill: nat): (i': int)
    requires |q.waiting| <= PIPESIZE && i <= |src| && i <= avail
    ensures i <= i' <= |src| && i' <= avail && |q.waiting| + i' - i <= PIPESIZE
  {
    if !q.readopen || kill <= i then i
    else Min(Min(|src|, avail), Min(kill, i + PIPESIZE - |q.waiting|))
  }

  /** Why the turn ends: an error comes before a full pipe, and that before a fault. */
  function WriteEnds(q: Queue, src: seq<byte>, i: nat, kill: nat, i': nat): Outcome {
    if i' == |src| then Done
    else if !q.readopen || kill <= i' then Fails
    else if |q.waiting| + i' - i == PIPESIZE then Sleeps else Done
  }

  /** One turn, on the queue. */
  function Serve(q: Queue, turn: Turn): (r: (Queue, Reply))
    requires |q.waiting| <= PIPESIZE && TurnOk(turn)
    ensures |r.0.waiting| <= PIPESIZE
  {
    match turn
    case Writer(src, avail, i, kill) =>
      var i' := WrittenTo(q, src, avail, i, kill);
      (q.(waiting := q.waiting + src[i..i']), Wrote(WriteEnds(q, src, i, kill, i'), i'))
    case Reader(n, avail, killed) =>
      if q.waiting == [] && q.writeopen then (q, Read(if killed then Fails else Sleeps, []))
      else
        var k := Min(n, |q.waiting|);
        if k <= avail then (q.(waiting := q.waiting[k..]), Read(Done, q.waiting[..k]))
        else (q.(waiting := q.waiting[avail + 1..]), Read(Done, q.waiting[..avail]))
    case Closer(writable) =>
      var q' := if writable then q.(writeopen := false) else q.(readopen := false);
      (q', Closed(!q'.readopen && !q'.writeopen))
  }

  predicate Answers(q: Queue, turn: Turn, reply: Reply, q': Queue) {
    |q.waiting| <= PIPESIZE && TurnOk(turn) && Serve(q, turn) == (q', reply)
  }

  predicate AnswersAt(turns: seq<Turn>, replies: seq<Reply>, trace: seq<Queue>, t: nat)
    requires t < |turns| == |replies| < |trace|
  {
    Answers(trace[t], turns[t], replies[t], trace[t + 1])
  }

  /** All turns, one after the other; `trace` has the queue after each. */
  predicate IsTrace(q: Queue, turns: seq<Turn>, replies: seq<Reply>, trace: seq<Queue>, q': Queue) {
    && |replies| == |turns| && |trace| == |turns| + 1 && trace[0] == q && trace[|turns|] == q'
    && forall t :: 0 <= t < |turns| ==> AnswersAt(turns, replies, trace, t)
  }

  lemma TraceMore(q: Queue, turns: seq<Turn>, replies: seq<Reply>, trace: seq<Queue>, q1: Queue, turn: Turn,
                  reply: Reply, q2: Queue)
    requires IsTrace(q, turns, replies, trace, q1) && Answers(q1, turn, reply, q2)
    ensures IsTrace(q, turns + [turn], replies + [reply], trace + [q2], q2)
  {
    var ts, rs, qs := turns + [turn], replies + [reply], trace + [q2];
    forall t | 0 <= t < |ts|
      ensures AnswersAt(ts, rs, qs, t)
    {
      if t < |turns| { assert AnswersAt(turns, replies, trace, t); }
    }
  }

  /** The bytes that turns with these replies stored, and those they got. */
  function Accepted(turns: seq<Turn>, replies: seq<Reply>): seq<byte>
    requires |turns| == |replies|
  {
    if turns == [] then []
    else
      var n := |turns| - 1;
      Accepted(turns[..n], replies[..n]) + StoredBy(turns[n], replies[n])
  }

  function StoredBy(turn: Turn, reply: Reply): seq<byte> {
    if turn.Writer? && reply.Wrote? && turn.i <= reply.i <= |turn.src| then turn.src[turn.i..reply.i] else []
  }

  function Delivered(replies: seq<Reply>): seq<byte> {
    if replies == [] then []
    else
      var n := |replies| - 1;
      Delivered(replies[..n]) + Got(replies[n])
  }

  function Got(reply: Reply): seq<byte> { if reply.Read? then reply.out else [] }

  function Slot(n: nat): nat { n % PIPESIZE }

  /** The counters are remainders of the numbers of bytes, and the ring holds the bytes in between. */
  ghost predicate Inv(p: P) {
    && |p.data| == PIPESIZE && p.consumed <= |p.stored| <= p.consumed + PIPESIZE
    && p.nread == p.consumed % TWO32 && p.nwrite == |p.stored| % TWO32
    && forall n :: p.consumed <= n < |p.stored| ==> p.data[Slot(n)] == p.stored[n]
  }

  lemma ModIs(x: nat, q: nat, r: nat)
    requires x == q * TWO32 + r && r < TWO32
    ensures x % TWO32 == r
  {}

  /** A number d further on, modulo 2^32. */
  lemma ModNext(c: nat, d: nat)
    requires d <= PIPESIZE
    ensures var r := c % TWO32;
            (c + d) % TWO32 == if r + d < TWO32 then r + d else r + d - TWO32
  {
    var q, r := c / TWO32, c % TWO32;
    if r + d < TWO32 { ModIs(c + d, q, r + d); } else { ModIs(c + d, q + 1, r + d - TWO32); }
  }

  lemma SlotNext(c: nat)
    ensures c % TWO32 % PIPESIZE == Slot(c)
  {}

  lemma Full(c: nat, d: nat)
    requires d <= PIPESIZE
    ensures (c + d) % TWO32 == (c % TWO32 + PIPESIZE) % TWO32 <==> d == PIPESIZE
    ensures c % TWO32 == (c + d) % TWO32 <==> d == 0
  {
    ModNext(c, d);
    ModNext(c, PIPESIZE);
    SumMod(c, PIPESIZE);
  }

  lemma SumMod(c: nat, d: nat)
    requires d <= PIPESIZE
    ensures (c % TWO32 + d) % TWO32 == (c + d) % TWO32
  {
    var r := c % TWO32;
    ModNext(c, d);
    if r + d < TWO32 { ModIs(r + d, 0, r + d); } else { ModIs(r + d, 1, r + d - TWO32); }
  }

  lemma Difference(c: nat, d: nat)
    requires d <= PIPESIZE
    ensures ((c + d) % TWO32 - c % TWO32) % TWO32 == d
  {
    ModNext(c, d);
    var x := (c + d) % TWO32 - c % TWO32;
    if x != d {
      assert x == d - TWO32;
      assert x % TWO32 == (x + TWO32) % TWO32;
    }
  }

  /** What the counters tell: how many bytes wait, and the slots of the next to write and to read. */
  lemma Counters(p: P)
    requires Inv(p)
    ensures p.nwrite == (p.nread + PIPESIZE) % TWO32 <==> |p.stored| == p.consumed + PIPESIZE
    ensures p.nread == p.nwrite <==> |p.stored| == p.consumed
    ensures Slot(p.nwrite) == Slot(|p.stored|) && Slot(p.nread) == Slot(p.consumed)
    ensures (p.nread + 1) % TWO32 == (p.consumed + 1) % TWO32 && (p.nwrite + 1) % TWO32 == (|p.stored| + 1) % TWO32
  {
    Full(p.consumed, |p.stored| - p.consumed);
    SumMod(p.consumed, 1);
    SumMod(|p.stored|, 1);
    SlotNext(p.consumed);
    SlotNext(|p.stored|);
  }

  lemma SlotsApart(n: nat, m: nat)
    requires n < m < n + PIPESIZE
    ensures Slot(n) != Slot(m)
  {}

  /** One byte in, one byte out. */
  ghost function Put(p: P, ch: byte): P
    requires |p.data| == PIPESIZE
  {
    p.(data := p.data[Slot(p.nwrite) := ch], nwrite := (p.nwrite + 1) % TWO32, stored := p.stored + [ch])
  }

  ghost function Taken(p: P): P { p.(nread := (p.nread + 1) % TWO32, consumed := p.consumed + 1) }

  lemma PutInv(p: P, ch: byte)
    requires Inv(p) && p.nwrite != (p.nread + PIPESIZE) % TWO32
    ensures Inv(Put(p, ch))
  {
    Counters(p);
    var p' := Put(p, ch);
    forall n | p'.consumed <= n < |p'.stored|
      ensures p'.data[Slot(n)] == p'.stored[n]
    {
      if n < |p.stored| { SlotsApart(n, |p.stored|); }
    }
  }

  lemma GotInv(p: P)
    requires Inv(p) && p.nread != p.nwrite
    ensures Inv(Taken(p)) && p.consumed < |p.stored| && p.data[Slot(p.nread)] == p.stored[p.consumed]
  {
    Counters(p);
  }

  /** What waits in a pipe. */
  ghost function Shown(p: P): Queue
    requires Inv(p)
  {
    Queue(p.stored[p.consumed..], p.readopen, p.writeopen)
  }

  lemma WriteServes(p: P, p': P, src: seq<byte>, avail: nat, i: nat, kill: nat, o: Outcome, i': nat)
    requires Inv(p) && Inv(p') && i <= i' <= |src| && i' <= avail
    requires p' == p.(data := p'.data, nwrite := p'.nwrite, stored := p.stored + src[i..i'])
    requires o == Done ==> i' == |src| || (i' == avail < |src| && |p'.stored| < p'.consumed + PIPESIZE)
    requires o == Sleeps ==> |p'.stored| == p'.consumed + PIPESIZE && i' < |src|
    requires o == Fails <==> i' < |src| && (!p.readopen || kill <= i')
    requires (!p.readopen || kill <= i ==> i' == i) && (i' > i ==> i' <= kill)
    ensures Serve(Shown(p), Writer(src, avail, i, kill)) == (Shown(p'), Wrote(o, i'))
  {
    assert p'.stored[p.consumed..] == p.stored[p.consumed..] + src[i..i'];
  }

  lemma ReadServes(p: P, p': P, n: nat, avail: nat, killed: bool, o: Outcome, out: seq<byte>)
    requires Inv(p) && Inv(p') && p' == p.(nread := p'.nread, consumed := p'.consumed)
    requires o == Done <==> p.consumed < |p.stored| || !p.writeopen
    requires o != Done ==> p' == p && out == [] && (o == Fails <==> killed)
    requires o == Done ==> ReadBytes(p, p'.consumed, out, n, avail)
    ensures Serve(Shown(p), Reader(n, avail, killed)) == (Shown(p'), Read(o, out))
  {
    var w, k := p.stored[p.consumed..], p'.consumed - p.consumed;
    if o == Done {
      assert w[k..] == p.stored[p'.consumed..];
      assert w[..|out|] == p.stored[p.consumed..p.consumed + |out|];
    }
  }

  lemma ReadMoves(p: P, p': P, n: nat, avail: nat, killed: bool, o: Outcome, out: seq<byte>)
    requires p.consumed <= |p.stored| && p' == p.(nread := p'.nread, consumed := p'.consumed)
    requires (o != Done ==> p' == p && out == []) && (o == Done ==> ReadBytes(p, p'.consumed, out, n, avail))
    ensures Moves(p.stored, p.consumed, Reader(n, avail, killed), Read(o, out), p'.stored, p'.consumed)
  {}

  /** Where pipewrite()'s loop is after i' bytes, or why it has ended. */
  ghost predicate Storing(p0: P, p: P, src: seq<byte>, avail: nat, i: nat, kill: nat, i': nat, o: Outcome, more: bool) {
    && i <= i' <= |src| && i' <= avail && Inv(p)
    && p == p0.(data := p.data, nwrite := p.nwrite, stored := p0.stored + src[i..i'])
    && (more ==> o == Done)
    && (i' > i ==> p.readopen && i' <= kill)
    && (!more ==> i' < |src| && (o == Fails <==> !p.readopen || kill <= i'))
    && (o == Sleeps ==> |p.stored| == p.consumed + PIPESIZE && i' < |src|)
    && (o == Done && !more ==> i' == avail && |p.stored| < p.consumed + PIPESIZE)
  }

  lemma StoreOne(stored: seq<byte>, src: seq<byte>, i: nat, i': nat)
    requires i <= i' < |src|
    ensures stored + src[i..i' + 1] == stored + src[i..i'] + [src[i']]
  {}

  // ----- the bytes that go through -----

  /** What a turn with this reply does to the bytes stored and the number consumed. */
  ghost predicate Moves(stored: seq<byte>, consumed: nat, turn: Turn, reply: Reply, stored': seq<byte>,
                        consumed': nat) {
    && consumed <= |stored| && stored' == stored + StoredBy(turn, reply)
    && if reply.Read? then
         && turn.Reader? && stored' == stored && consumed + |reply.out| <= consumed' <= consumed + |reply.out| + 1
         && consumed' <= |stored| && reply.out == stored[consumed..consumed + |reply.out|]
         && (turn.n <= turn.avail ==> consumed' == consumed + |reply.out|)
       else consumed' == consumed
  }

  /** After some turns: what was stored, and what was got. */
  ghost predicate Flows(stored: seq<byte>, consumed: nat, turns: seq<Turn>, replies: seq<Reply>, lost: set<nat>) {
    && |turns| == |replies| && consumed <= |stored| && stored == Accepted(turns, replies)
    && (forall n :: n in lost ==> n < consumed) && Delivered(replies) == Except(stored[..consumed], lost)
    && (AllFit(turns) ==> lost == {})
  }

  /** All readers can take what they ask for. */
  predicate AllFit(turns: seq<Turn>) {
    forall u :: 0 <= u < |turns| && turns[u].Reader? ==> turns[u].n <= turns[u].avail
  }

  ghost function NowLost(consumed: nat, reply: Reply, consumed': nat, lost: set<nat>): set<nat> {
    if reply.Read? then lost + Hole(consumed + |reply.out|, consumed') else lost
  }

  lemma FlowsMore(stored: seq<byte>, consumed: nat, turns: seq<Turn>, replies: seq<Reply>, lost: set<nat>, turn: Turn,
                  reply: Reply, stored': seq<byte>, consumed': nat)
    requires Flows(stored, consumed, turns, replies, lost) && Moves(stored, consumed, turn, reply, stored', consumed')
    ensures Flows(stored', consumed', turns + [turn], replies + [reply], NowLost(consumed, reply, consumed', lost))
  {
    AcceptedMore(turns, replies, turn, reply);
    FitBefore(turns, turn);
    Gets(stored, consumed, turn, reply, stored', consumed', lost);
  }

  /** What readers have got, after one more turn. */
  lemma Gets(stored: seq<byte>, consumed: nat, turn: Turn, reply: Reply, stored': seq<byte>, consumed': nat,
             lost: set<nat>)
    requires Moves(stored, consumed, turn, reply, stored', consumed') && forall n :: n in lost ==> n < consumed
    ensures consumed' <= |stored'|
    ensures var lost' := NowLost(consumed, reply, consumed', lost);
            && Except(stored'[..consumed'], lost') == Except(stored[..consumed], lost) + Got(reply)
            && (forall n :: n in lost' ==> n < consumed')
            && (lost == {} && (turn.Reader? ==> turn.n <= turn.avail) ==> lost' == {})
  {
    if reply.Read? {
      ExceptMore(stored, consumed, reply.out, consumed', lost);
    } else {
      assert stored'[..consumed'] == stored[..consumed];
    }
  }

  lemma AcceptedMore(turns: seq<Turn>, replies: seq<Reply>, turn: Turn, reply: Reply)
    requires |turns| == |replies|
    ensures Accepted(turns + [turn], replies + [reply]) == Accepted(turns, replies) + StoredBy(turn, reply)
    ensures Delivered(replies + [reply]) == Delivered(replies) + Got(reply)
  {
    var ts, rs := turns + [turn], replies + [reply];
    assert ts[..|turns|] == turns && rs[..|turns|] == replies;
  }

  lemma FitBefore(turns: seq<Turn>, turn: Turn)
    ensures AllFit(turns + [turn]) ==> AllFit(turns) && (turn.Reader? ==> turn.n <= turn.avail)
  {
    var ts := turns + [turn];
    if AllFit(ts) {
      assert ts[|turns|] == turn;
      forall u | 0 <= u < |turns| && turns[u].Reader?
        ensures turns[u].n <= turns[u].avail
      {
        assert ts[u] == turns[u];
      }
    }
  }

  class PipeBuffer {
    var p: P

    /** pipealloc(): an empty pipe, open at both ends. */
    constructor ()
      ensures Inv(p) && p.stored == [] && p.consumed == 0 && p.readopen && p.writeopen
    {
      p := P(seq(PIPESIZE, _ => 0), 0, 0, true, true, [], 0);
    }

    /** pipeclose(): one end is closed; returns whether the pipe is to be freed. */
    method Close(writable: bool) returns (free: bool)
      modifies this
      ensures p == if writable then old(p).(writeopen := false) else old(p).(readopen := false)
      ensures free <==> !p.readopen && !p.writeopen
    {
      if writable {
        p := p.(writeopen := false);
      } else {
        p := p.(readopen := false);
      }
      free := !p.readopen && !p.writeopen;
    }

    /**
     A turn of pipewrite(), after i of the bytes src were written. `avail` of them can
     be read from user memory, and once `kill` are written the process counts as killed.
     Returns how many are written now.
     */
    method WriteTurn(src: seq<byte>, avail: nat, i: nat, kill: nat) returns (o: Outcome, i': nat)
      requires Inv(p) && i <= |src| && i <= avail
      modifies this
      ensures Inv(p) && i <= i' <= |src| && i' <= avail
      ensures p == old(p).(data := p.data, nwrite := p.nwrite, stored := old(p).stored + src[i..i'])
      ensures o == Done ==> i' == |src| || (i' == avail < |src| && |p.stored| < p.consumed + PIPESIZE)
      ensures o == Sleeps ==> |p.stored| == p.consumed + PIPESIZE && i' < |src|
      ensures o == Fails <==> i' < |src| && (!p.readopen || kill <= i')
      ensures !p.readopen || kill <= i ==> i' == i
      ensures i' > i ==> i' <= kill
    {
      i', o := i, Done;
      var more := true;
      assert src[i..i] == [];
      while more && i' < |src|
        invariant Storing(old(p), p, src, avail, i, kill, i', o, more)
        decreases more, |src| - i'
      {
        if !p.readopen || kill <= i' {
          o, more := Fails, false;
        } else {
          var full := IsFull();
          if full {
            o, more := Sleeps, false;
          } else if i' >= avail {
            more := false;
          } else {
            StoreOne(old(p).stored, src, i, i');
            PutByte(src[i']);
            i' := i' + 1;
          }
        }
      }
    }

    /** Whether the ring is full, as the counters tell. */
    method IsFull() returns (full: bool)
      requires Inv(p)
      ensures full <==> |p.stored| == p.consumed + PIPESIZE
    {
      Counters(p);
      full := p.nwrite == (p.nread + PIPESIZE) % TWO32;
    }

    method PutByte(ch: byte)
      requires Inv(p) && |p.stored| < p.consumed + PIPESIZE
      modifies this
      ensures Inv(p) && p == old(p).(data := p.data, nwrite := p.nwrite, stored := old(p).stored + [ch])
    {
      Counters(p);
      PutInv(p, ch);
      p := p.(data := p.data[Slot(p.nwrite) := ch], nwrite := (p.nwrite + 1) % TWO32, stored := p.stored + [ch]);
    }

    /**
     A turn of piperead() of up to n bytes, of which `avail` can be written to user
     memory. A byte whose copyout() fails is consumed all the same, though not counted.
     */
    method ReadTurn(n: nat, avail: nat, killed: bool) returns (o: Outcome, out: seq<byte>)
      requires Inv(p)
      modifies this
      ensures Inv(p) && p == old(p).(nread := p.nread, consumed := p.consumed)
      ensures o == Done <==> old(p.consumed < |p.stored| || !p.writeopen)
      ensures o != Done ==> p == old(p) && out == [] && (o == Fails <==> killed)
      ensures o == Done ==> ReadBytes(old(p), p.consumed, out, n, avail)
    {
      out := [];
      Counters(p);
      if p.nread == p.nwrite && p.writeopen {
        o := if killed then Fails else Sleeps;
        return;
      }
      o := Done;
      var more := true;
      while more && |out| < n
        invariant Inv(p) && p == old(p).(nread := p.nread, consumed := p.consumed)
        invariant Reading(old(p), p.consumed, out, n, avail, more)
        decreases more, n - |out|
      {
        out, more := ReadByte(n, avail, out, old(p));
      }
      ReadEnds(old(p), p.consumed, out, n, avail, more);
    }

    /** A turn of some thread. */
    method Take(turn: Turn) returns (reply: Reply)
      requires Inv(p) && TurnOk(turn)
      modifies this
      ensures Inv(p) && Answers(Shown(old(p)), turn, reply, Shown(p))
      ensures Moves(old(p).stored, old(p).consumed, turn, reply, p.stored, p.consumed)
    {
      match turn
      case Writer(src, avail, i, kill) =>
        var o, i' := WriteTurn(src, avail, i, kill);
        WriteServes(old(p), p, src, avail, i, kill, o, i');
        reply := Wrote(o, i');
      case Reader(n, avail, killed) =>
        var o, out := ReadTurn(n, avail, killed);
        ReadServes(old(p), p, n, avail, killed, o, out);
        ReadMoves(old(p), p, n, avail, killed, o, out);
        reply := Read(o, out);
      case Closer(writable) =>
        var free := Close(writable);
        reply := Closed(free);
    }

    /**
     Turns of any readers and writers, in any order, on a new pipe: it answers as a queue of
     at most PIPESIZE bytes does. So the bytes the readers got are the first of those the
     writers stored, in order, but for those at positions `lost`, which were read and could
     not be copied out.
     */
    method Traffic(turns: seq<Turn>) returns (replies: seq<Reply>, ghost trace: seq<Queue>, ghost lost: set<nat>)
      requires Inv(p) && p.stored == [] && p.consumed == 0 && p.readopen && p.writeopen
      requires forall t :: 0 <= t < |turns| ==> TurnOk(turns[t])
      modifies this
      ensures Inv(p) && IsTrace(Queue([], true, true), turns, replies, trace, Shown(p))
      ensures p.stored == Accepted(turns, replies) && forall n :: n in lost ==> n < p.consumed
      ensures Delivered(replies) == Except(Accepted(turns, replies)[..p.consumed], lost)
      ensures AllFit(turns) ==> Delivered(replies) == Accepted(turns, replies)[..p.consumed]
    {
      replies, trace, lost := [], [Queue([], true, true)], {};
      for t := 0 to |turns|
        invariant Inv(p) && IsTrace(Queue([], true, true), turns[..t], replies, trace, Shown(p))
        invariant Flows(p.stored, p.consumed, turns[..t], replies, lost)
      {
        ghost var p0 := p;
        assert turns[..t + 1] == turns[..t] + [turns[t]];
        var reply := Take(turns[t]);
        TraceMore(Queue([], true, true), turns[..t], replies, trace, Shown(p0), turns[t], reply, Shown(p));
        FlowsMore(p0.stored, p0.consumed, turns[..t], replies, lost, turns[t], reply, p.stored, p.consumed);
        lost := NowLost(p0.consumed, reply, p.consumed, lost);
        replies, trace := replies + [reply], trace + [Shown(p)];
      }
      assert turns[..|turns|] == turns;
      ExceptNone(p.stored[..p.consumed]);
    }

    /** One pass of piperead()'s loop: the next byte, if there is one. */
    method ReadByte(n: nat, avail: nat, out: seq<byte>, ghost p0: P) returns (out': seq<byte>, more: bool)
      requires Inv(p) && p == p0.(nread := p.nread, consumed := p.consumed) && |out| < n
               && Reading(p0, p.consumed, out, n, avail, true)
      modifies this
      ensures Inv(p) && p == p0.(nread := p.nread, consumed := p.consumed)
              && Reading(p0, p.consumed, out', n, avail, more)
      ensures more ==> |out'| == |out| + 1
    {
      out', more := out, false;
      Counters(p);
      if p.nread != p.nwrite {
        GotInv(p);
        var ch := p.data[Slot(p.nread)];
        p := p.(nread := (p.nread + 1) % TWO32, consumed := p.consumed + 1);
        if |out| < avail {
          out', more := out + [ch], true;
        }
      }
    }
  }

  /** s without the bytes at these positions. */
  ghost function Except(s: seq<byte>, lost: set<nat>): seq<byte> {
    if s == [] then []
    else Except(s[..|s| - 1], lost) + if |s| - 1 in lost then [] else [s[|s| - 1]]
  }

  ghost function Hole(from: nat, to: nat): set<nat> { if from < to then {from} else {} }

  lemma {:induction false} ExceptNone(s: seq<byte>)
    ensures Except(s, {}) == s
  {
    if s != [] { ExceptNone(s[..|s| - 1]); }
  }

  /** Positions that a sequence does not have make no difference. */
  lemma {:induction false} ExceptBeyond(s: seq<byte>, lost: set<nat>, n: nat)
    requires |s| <= n
    ensures Except(s, lost + {n}) == Except(s, lost)
  {
    if s != [] { ExceptBeyond(s[..|s| - 1], lost, n); }
  }

  lemma {:induction false} ExceptKept(s: seq<byte>, c: nat, k: nat, lost: set<nat>)
    requires c + k <= |s| && forall n :: n in lost ==> n < c
    ensures Except(s[..c + k], lost) == Except(s[..c], lost) + s[c..c + k]
    decreases k
  {
    if k > 0 {
      ExceptKept(s, c, k - 1, lost);
      assert s[..c + k][..c + k - 1] == s[..c + k - 1];
      assert s[c..c + k] == s[c..c + k - 1] + [s[c + k - 1]];
    }
  }

  lemma ExceptMore(s: seq<byte>, c: nat, out: seq<byte>, c': nat, lost: set<nat>)
    requires c + |out| <= c' <= c + |out| + 1 && c' <= |s| && out == s[c..c + |out|] && forall n :: n in lost ==> n < c
    ensures Except(s[..c'], lost + Hole(c + |out|, c')) == Except(s[..c], lost) + out
  {
    ExceptKept(s, c, |out|, lost);
    if c' == c + |out| {
      assert lost + {} == lost;
    } else {
      ExceptBeyond(s[..c + |out|], lost, c + |out|);
      assert s[..c'][..c' - 1] == s[..c + |out|];
    }
  }

  /** What piperead() leaves: the waiting bytes, up to n, went out, as far as user memory could take them. */
  ghost predicate ReadBytes(p: P, consumed: nat, out: seq<byte>, n: nat, avail: nat)
    requires p.consumed <= |p.stored|
  {
    var c, k := p.consumed, Min(n, |p.stored| - p.consumed);
    if k <= avail then out == p.stored[c..c + k] && consumed == c + k
    else out == p.stored[c..c + avail] && consumed == c + avail + 1
  }

  /** And while it reads. */
  ghost predicate Reading(p: P, consumed: nat, out: seq<byte>, n: nat, avail: nat, more: bool) {
    && p.consumed + |out| <= |p.stored| && |out| <= n && |out| <= avail
       && out == p.stored[p.consumed..p.consumed + |out|]
    && if more then consumed == p.consumed + |out|
       else
         |out| < n
         && if consumed == p.consumed + |out| then consumed == |p.stored|
            else |out| == avail && consumed == p.consumed + avail + 1 <= |p.stored|
  }

  lemma ReadEnds(p: P, consumed: nat, out: seq<byte>, n: nat, avail: nat, more: bool)
    requires Reading(p, consumed, out, n, avail, more) && (!more || |out| == n)
    ensures p.consumed <= |p.stored| && ReadBytes(p, consumed, out, n, avail)
  {}

  /**
   In every state between 0 and PIPESIZE bytes wait, as the difference of the 32-bit
   counters says, and they are the last of those stored: so all bytes ever read are
   the first of those written, in order.
   */
  lemma Fifo(p: P)
    requires Inv(p)
    ensures 0 <= (p.nwrite - p.nread) % TWO32 <= PIPESIZE
    ensures p.stored == p.stored[..p.consumed] + Waiting(p, (p.nwrite - p.nread) % TWO32)
  {
    Difference(p.consumed, |p.stored| - p.consumed);
    var k := |p.stored| - p.consumed;
    forall i | 0 <= i < k
      ensures Waiting(p, k)[i] == p.stored[p.consumed + i]
    {
      SumMod(p.consumed, i);
      SlotNext(p.consumed + i);
    }
  }

  /** The k bytes in the ring from nread on. */
  function Waiting(p: P, k: nat): (s: seq<byte>)
    requires |p.data| == PIPESIZE
    ensures |s| == k
  {
    seq(k, i requires 0 <= i < k => p.data[(p.nread + i) % TWO32 % PIPESIZE])
  }
}
