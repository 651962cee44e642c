/**
 Crashes and files together: a run of the storage machine of Storage.dfy that carries
 out the transactions of file-system calls, several of them in one commit or not, can be
 cut off at any point, and recovery then finds the files of some transaction's end.
 */
module FileCrash {
  import opened Words
  import opened LogCore
  import opened Storage
  import opened StorageSafety
  import opened FsLayout
  import opened FsChunks
  import opened FsSession
  import opened FsImage

  /** How many calls have ended before step n. */
  function Ended(steps: seq<Step>, n: nat): nat
    requires n <= |steps|
  {
    if n == 0 then 0 else Ended(steps, n - 1) + if steps[n - 1].EndOp? then 1 else 0
  }

  /** How many calls had ended when none was in progress last. */
  function SettledAt(steps: seq<Step>, states: seq<State>, n: nat): nat
    requires n <= |steps| < |states|
  {
    if n == 0 then 0 else if states[n].m.outstanding == 0 then Ended(steps, n) else SettledAt(steps, states, n - 1)
  }

  /** The blocks that have been logged since then. */
  function Touched(steps: seq<Step>, states: seq<State>, n: nat): set<nat>
    requires n <= |steps| < |states|
  {
    if n == 0 || states[n].m.outstanding == 0 then {}
    else Touched(steps, states, n - 1) + Logs(states[n - 1], steps[n - 1])
  }

  function Logs(s: State, step: Step): set<nat> {
    if step.LogWrite? && step.i < |s.bufs| then {s.bufs[step.i].blockno} else {}
  }

  /** The blocks of transactions q to c. */
  function BlocksOf(txs: seq<Tx>, q: nat, c: nat): set<nat>
    requires c <= |txs|
    decreases c
  {
    if q >= c then {} else BlocksOf(txs, q, c - 1) + txs[c - 1].logged
  }

  /**
   Step k belongs to the transactions. Calls may overlap, and when the last one in progress ends,
   what they have logged together is the blocks of their transactions, as the last of these has them.
   */
  ghost predicate CarriesAt(sb: Super, txs: seq<Tx>, steps: seq<Step>, states: seq<State>, k: nat)
    requires k < |steps| < |states|
  {
    && !steps[k].Crash?
    && (steps[k].EndOp? && states[k].m.outstanding == 1 ==>
          GroupEnds(sb, txs, states[k].m, SettledAt(steps, states, k), Ended(steps, k + 1), Touched(steps, states, k)))
  }

  ghost predicate GroupEnds(sb: Super, txs: seq<Tx>, m: LogState, q: nat, c: nat, touched: set<nat>) {
    && 0 < c <= |txs| && touched <= BlocksOf(txs, q, c)
    && forall b :: b in BlocksOf(txs, q, c) && b < |m.logical| ==> BlockHolds(sb, txs[c - 1].after, b, m.logical[b])
  }

  ghost predicate Carries(sb: Super, txs: seq<Tx>, steps: seq<Step>, states: seq<State>, n: nat)
    requires n <= |steps| < |states|
  {
    forall k :: 0 <= k < n ==> CarriesAt(sb, txs, steps, states, k)
  }

  /** What has been logged is version q, except for blocks touched since. */
  ghost predicate Logging(sb: Super, v0: Fs, txs: seq<Tx>, m: LogState, q: nat, touched: set<nat>) {
    && q <= |txs| && |m.logical| == sb.size
    && forall b :: 0 <= b < |m.logical| && b !in touched ==> BlockHolds(sb, VersionAt(v0, txs, q), b, m.logical[b])
  }

  lemma StepLogs(s: State, step: Step)
    requires Enabled(s, step) && !step.Crash?
    ensures var m' := Apply(s, step).m;
            && m'.logical == (if step.LogWrite? then s.m.logical[s.bufs[step.i].blockno := s.bufs[step.i].data]
                              else s.m.logical)
            && m'.outstanding == if step.BeginOp? then s.m.outstanding + 1
                                 else if step.EndOp? then s.m.outstanding - 1 else s.m.outstanding
  {}

  lemma {:induction false} VersionSound(sb: Super, v0: Fs, txs: seq<Tx>, c: nat)
    requires Sound(sb, v0) && History(sb, v0, txs) && c <= |txs|
    ensures Sound(sb, VersionAt(v0, txs, c)) && |VersionAt(v0, txs, c).inodes| == |v0.inodes|
    ensures |VersionAt(v0, txs, c).data| == |v0.data| && |VersionAt(v0, txs, c).bits| == |v0.bits|
  {
    if c > 0 {
      VersionSound(sb, v0, txs, c - 1);
      assert TxOk(sb, v0, txs, c - 1);
    }
  }

  /** Blocks that none of the transactions logged are the same before and after them. */
  lemma {:induction false} UnloggedBy(sb: Super, v0: Fs, txs: seq<Tx>, q: nat, c: nat, b: nat, v: Block)
    requires History(sb, v0, txs) && q <= c <= |txs| && b !in BlocksOf(txs, q, c)
    requires BlockHolds(sb, VersionAt(v0, txs, q), b, v)
    ensures BlockHolds(sb, VersionAt(v0, txs, c), b, v)
    decreases c
  {
    if q < c {
      UnloggedBy(sb, v0, txs, q, c - 1, b, v);
      assert TxOk(sb, v0, txs, c - 1);
      Unlogged(sb, VersionAt(v0, txs, c - 1), txs[c - 1].after, txs[c - 1].logged, b, v);
    }
  }

  lemma LoggingEnds(sb: Super, v0: Fs, txs: seq<Tx>, m: LogState, q: nat, c: nat, touched: set<nat>)
    requires History(sb, v0, txs) && Logging(sb, v0, txs, m, q, touched) && q <= c
    requires GroupEnds(sb, txs, m, q, c, touched)
    ensures Logging(sb, v0, txs, m, c, {})
  {
    forall b | 0 <= b < |m.logical|
      ensures BlockHolds(sb, VersionAt(v0, txs, c), b, m.logical[b])
    {
      if b !in BlocksOf(txs, q, c) { UnloggedBy(sb, v0, txs, q, c, b, m.logical[b]); }
    }
  }

  /** A call is in progress when blocks are logged, and none when the header is written. */
  lemma StepCounts(s: State, step: Step)
    requires Inv(s) && Enabled(s, step)
    ensures step.LogWrite? ==> s.m.outstanding > 0
    ensures step.WriteHead? ==> s.m.outstanding == 0
  {
    if step.LogWrite? { OpsBounds(s.m.ops); }
  }

  lemma {:induction false} SettledEnded(steps: seq<Step>, states: seq<State>, n: nat)
    requires IsRun(steps, states) && n < |states|
    ensures SettledAt(steps, states, n) <= Ended(steps, n)
    ensures states[n].m.outstanding == 0 ==>
              SettledAt(steps, states, n) == Ended(steps, n) && Touched(steps, states, n) == {}
  {
    if n > 0 { SettledEnded(steps, states, n - 1); }
  }

  /**
   The first n steps of a run carry out the transactions txs, starting from a disk with the file
   system v0, whose inodes, bitmap and data lie behind the log.
   */
  ghost predicate CarriesOut(sb: Super, v0: Fs, txs: seq<Tx>, steps: seq<Step>, states: seq<State>, n: nat) {
    && IsRun(steps, states) && n < |states| && Carries(sb, txs, steps, states, n)
    && Sound(sb, v0) && History(sb, v0, txs)
    && DiskHolds(sb, v0, states[0].m.logical) && |states[0].m.logical| == sb.size
    && Placed(sb, |v0.inodes|, states[0].m.g.start + states[0].m.g.size)
  }

  lemma EndedStep(steps: seq<Step>, k: nat, n: nat)
    requires n == k + 1 <= |steps|
    ensures Ended(steps, n) == Ended(steps, k) + if steps[k].EndOp? then 1 else 0
  {}

  lemma SettledStep(steps: seq<Step>, states: seq<State>, k: nat, n: nat)
    requires n == k + 1 <= |steps| < |states|
    ensures SettledAt(steps, states, n) ==
              if states[n].m.outstanding == 0 then Ended(steps, n) else SettledAt(steps, states, k)
  {}

  lemma TouchedStep(steps: seq<Step>, states: seq<State>, k: nat, n: nat)
    requires n == k + 1 <= |steps| < |states|
    ensures Touched(steps, states, n) ==
              if states[n].m.outstanding == 0 then {} else Touched(steps, states, k) + Logs(states[k], steps[k])
  {
    if states[n].m.outstanding != 0 {
      assert states[n - 1] == states[k] && steps[n - 1] == steps[k];
    }
  }

  lemma OneStep(steps: seq<Step>, states: seq<State>, k: nat, n: nat)
    requires n == k + 1 <= |steps| < |states|
    ensures Ended(steps, n) == Ended(steps, k) + if steps[k].EndOp? then 1 else 0
    ensures if states[n].m.outstanding == 0 then
              SettledAt(steps, states, n) == Ended(steps, n) && Touched(steps, states, n) == {}
            else
              && SettledAt(steps, states, n) == SettledAt(steps, states, k)
              && Touched(steps, states, n) == Touched(steps, states, k) + Logs(states[k], steps[k])
  {
    EndedStep(steps, k, n);
    SettledStep(steps, states, k, n);
    TouchedStep(steps, states, k, n);
  }

  lemma LoggingMore(sb: Super, v0: Fs, txs: seq<Tx>, s: State, step: Step, q: nat, touched: set<nat>)
    requires Logging(sb, v0, txs, s.m, q, touched) && Enabled(s, step) && !step.Crash?
    ensures Logging(sb, v0, txs, Apply(s, step).m, q, touched + Logs(s, step))
  {
    StepLogs(s, step);
  }

  /** The step after which no call is in progress. */
  lemma LoggingQuiet(sb: Super, v0: Fs, txs: seq<Tx>, s: State, step: Step, q: nat, c: nat, touched: set<nat>)
    requires History(sb, v0, txs) && Logging(sb, v0, txs, s.m, q, touched) && q <= c
    requires Enabled(s, step) && !step.Crash? && Apply(s, step).m.outstanding == 0
    requires step.LogWrite? ==> s.m.outstanding > 0
    requires if step.EndOp? then GroupEnds(sb, txs, s.m, q, c, touched) else q == c && touched == {}
    ensures Logging(sb, v0, txs, Apply(s, step).m, c, {})
  {
    StepLogs(s, step);
    if step.EndOp? { LoggingEnds(sb, v0, txs, s.m, q, c, touched); }
  }

  /** One step of the run. */
  lemma LoggingNext(sb: Super, v0: Fs, txs: seq<Tx>, steps: seq<Step>, states: seq<State>, k: nat, n: nat)
    requires IsRun(steps, states) && History(sb, v0, txs) && n == k + 1 <= |steps|
    requires CarriesAt(sb, txs, steps, states, k)
    requires Logging(sb, v0, txs, states[k].m, SettledAt(steps, states, k), Touched(steps, states, k))
    ensures Logging(sb, v0, txs, states[n].m, SettledAt(steps, states, n), Touched(steps, states, n))
  {
    var q, touched := SettledAt(steps, states, k), Touched(steps, states, k);
    assert StepAt(steps, states, k);
    OneStep(steps, states, k, n);
    SettledEnded(steps, states, k);
    if states[n].m.outstanding == 0 {
      RunInv(steps, states, k);
      StepCounts(states[k], steps[k]);
      StepLogs(states[k], steps[k]);
      LoggingQuiet(sb, v0, txs, states[k], steps[k], q, Ended(steps, n), touched);
    } else {
      LoggingMore(sb, v0, txs, states[k], steps[k], q, touched);
    }
  }

  /** The log follows the transactions, at every point of the run. */
  lemma {:induction false} RunLogs(sb: Super, v0: Fs, txs: seq<Tx>, steps: seq<Step>, states: seq<State>, n: nat)
    requires CarriesOut(sb, v0, txs, steps, states, n)
    ensures Logging(sb, v0, txs, states[n].m, SettledAt(steps, states, n), Touched(steps, states, n))
  {
    if n > 0 {
      var k: nat := n - 1;
      CarriesLess(sb, v0, txs, steps, states, n, k);
      RunLogs(sb, v0, txs, steps, states, k);
      assert CarriesAt(sb, txs, steps, states, k);
      LoggingNext(sb, v0, txs, steps, states, k, n);
    }
  }

  /** With no call in progress, the log has the version after those that have ended. */
  lemma QuietVersion(sb: Super, v0: Fs, txs: seq<Tx>, steps: seq<Step>, states: seq<State>, n: nat)
    requires CarriesOut(sb, v0, txs, steps, states, n) && states[n].m.outstanding == 0
    ensures Ended(steps, n) <= |txs| && DiskHolds(sb, VersionAt(v0, txs, Ended(steps, n)), states[n].m.logical)
  {
    RunLogs(sb, v0, txs, steps, states, n);
    SettledEnded(steps, states, n);
    VersionSound(sb, v0, txs, Ended(steps, n));
  }

  lemma CarriesLess(sb: Super, v0: Fs, txs: seq<Tx>, steps: seq<Step>, states: seq<State>, n: nat, k: nat)
    requires CarriesOut(sb, v0, txs, steps, states, n) && k <= n
    ensures CarriesOut(sb, v0, txs, steps, states, k)
  {}

  // ----- crashes -----

  /** How many calls had ended when the latest header write committed them. */
  function Durable(steps: seq<Step>, n: nat): nat
    requires n <= |steps|
  {
    if LastCommit(steps, n) == 0 then 0 else Ended(steps, LastCommit(steps, n) - 1)
  }

  lemma {:induction false} EndedMore(steps: seq<Step>, k: nat, n: nat)
    requires k <= n <= |steps|
    ensures Ended(steps, k) <= Ended(steps, n)
  {
    if k < n { EndedMore(steps, k, n - 1); }
  }

  lemma FreeBlock(sb: Super, fs: Fs, low: nat, b: nat, v: Block)
    requires Placed(sb, |fs.inodes|, low) && |fs.bits| == sb.size && b < low
    ensures BlockHolds(sb, fs, b, v)
  {
    forall c | 0 <= c < |fs.bits|
      ensures BBlock(sb, c) != b
    {
      Behind(sb, c);
    }
    forall i | 0 <= i < |fs.inodes|
      ensures IBlock(sb, i) != b
    {
      Behind(sb, i);
    }
  }

  lemma Behind(sb: Super, n: nat)
    ensures BBlock(sb, n) >= sb.bmapstart && IBlock(sb, n) >= sb.inodestart
  {}

  /** Nothing of the file system is in the log's own blocks. */
  lemma HomeHolds(sb: Super, g: Geometry, fs: Fs, d: Disk, e: Disk)
    requires Placed(sb, |fs.inodes|, g.start + g.size) && |fs.bits| == sb.size
    requires DiskHolds(sb, fs, d) && SameHome(g, d, e)
    ensures DiskHolds(sb, fs, e)
  {
    forall b | 0 <= b < |e|
      ensures BlockHolds(sb, fs, b, e[b])
    {
      assert BlockHolds(sb, fs, b, d[b]);
      if IsHome(g, |d|, b) { assert d[b] == e[b]; } else { FreeBlock(sb, fs, g.start + g.size, b, e[b]); }
    }
  }

  /** A header write commits the version after the calls that have ended. */
  lemma HeadVersion(sb: Super, v0: Fs, txs: seq<Tx>, steps: seq<Step>, states: seq<State>, k: nat)
    requires CarriesOut(sb, v0, txs, steps, states, k) && k < |steps| && steps[k].WriteHead?
    ensures Ended(steps, k) <= |txs| && DiskHolds(sb, VersionAt(v0, txs, Ended(steps, k)), states[k].m.logical)
  {
    RunInv(steps, states, k);
    assert StepAt(steps, states, k);
    StepCounts(states[k], steps[k]);
    QuietVersion(sb, v0, txs, steps, states, k);
  }

  lemma LastHead(steps: seq<Step>, states: seq<State>, n: nat) returns (k: nat)
    requires n <= |steps| < |states| && LastCommit(steps, n) > 0
    ensures k < n && steps[k].WriteHead? && Durable(steps, n) == Ended(steps, k)
    ensures CommittedAt(steps, states, n) == states[k].m.logical
  {
    k := LastCommit(steps, n) - 1;
  }

  /** What is committed is the version after the calls that had ended by then. */
  lemma CommitsVersion(sb: Super, v0: Fs, txs: seq<Tx>, steps: seq<Step>, states: seq<State>, n: nat)
    requires CarriesOut(sb, v0, txs, steps, states, n)
    ensures Durable(steps, n) <= |txs|
    ensures DiskHolds(sb, VersionAt(v0, txs, Durable(steps, n)), CommittedAt(steps, states, n))
  {
    if LastCommit(steps, n) > 0 {
      var k := LastHead(steps, states, n);
      CarriesLess(sb, v0, txs, steps, states, n, k);
      HeadVersion(sb, v0, txs, steps, states, k);
    }
  }

  lemma DurableEnded(steps: seq<Step>, states: seq<State>, n: nat)
    requires n <= |steps| < |states|
    ensures Durable(steps, n) <= Ended(steps, n)
  {
    if LastCommit(steps, n) > 0 {
      var k := LastHead(steps, states, n);
      EndedMore(steps, k, n);
    }
  }

  /**
   A power failure at any point of the run leaves a disk on which recovery finds one
   version of the file system: that after the calls committed so far.
   */
  lemma CrashLeavesVersion(sb: Super, v0: Fs, txs: seq<Tx>, steps: seq<Step>, states: seq<State>, n: nat, home: Disk)
    requires CarriesOut(sb, v0, txs, steps, states, n) && RecoversTo(states[0].m.g, states[n].m.disk, home)
    ensures Durable(steps, n) <= Ended(steps, n) && Durable(steps, n) <= |txs|
    ensures |home| == sb.size && DiskHolds(sb, VersionAt(v0, txs, Durable(steps, n)), home)
  {
    var g, c, d := states[0].m.g, Durable(steps, n), CommittedAt(steps, states, n);
    CrashAtomicity(steps, states, n);
    CommitsVersion(sb, v0, txs, steps, states, n);
    DurableEnded(steps, states, n);
    RecoveryIsUnique(g, states[n].m.disk, d, home);
    VersionSound(sb, v0, txs, c);
    HomeHolds(sb, g, VersionAt(v0, txs, c), d, home);
  }

  /** Once a commit is over, all calls that have ended are on the disk. */
  lemma EndedIsDurable(sb: Super, v0: Fs, txs: seq<Tx>, steps: seq<Step>, states: seq<State>, n: nat)
    requires CarriesOut(sb, v0, txs, steps, states, n)
    requires var m := states[n].m; m.outstanding == 0 && m.lh == [] && !Rebooting(m)
    ensures Ended(steps, n) <= |txs| && DiskHolds(sb, VersionAt(v0, txs, Ended(steps, n)), states[n].m.disk)
  {
    var m, c := states[n].m, Ended(steps, n);
    QuietVersion(sb, v0, txs, steps, states, n);
    RunInv(steps, states, n);
    CommittedIs(steps, states, n);
    VersionSound(sb, v0, txs, c);
    assert SameHome(m.g, m.logical, m.disk);
    HomeHolds(sb, m.g, VersionAt(v0, txs, c), m.logical, m.disk);
  }

  // ----- files -----

  /**
   A session of calls cut off by a power failure: the disk has the files after those of its
   transactions that were committed, whichever call k the last of them belongs to.
   */
  lemma SessionCrash(sb: Super, v0: Fs, requests: seq<Request>, run: Run, v': View, steps: seq<Step>,
                     states: seq<State>, n: nat, home: Disk)
      returns (k: nat)
    requires CarriesOut(sb, v0, Flat(run.spans), steps, states, n)
    requires AllMapped(sb, v0) && IsTrace(ViewOf(sb, v0), requests, run, v') && Tidy(sb, requests, run)
    requires RecoversTo(states[0].m.g, states[n].m.disk, home)
    ensures Placed(sb, |v0.inodes|, 0) && |home| == sb.size && Durable(steps, n) <= Ended(steps, n)
    ensures CutOff(sb, requests, run, Durable(steps, n), k, FsOn(sb, |v0.inodes|, home))
  {
    var txs, c := Flat(run.spans), Durable(steps, n);
    CrashLeavesVersion(sb, v0, txs, steps, states, n, home);
    VersionSound(sb, v0, txs, c);
    DiskFiles(sb, VersionAt(v0, txs, c), home);
    k := CutOffAt(sb, v0, requests, run, v', c, FsOn(sb, |v0.inodes|, home));
  }

  // ----- any number of crashes -----

  lemma CrashBoots(s: State)
    requires Inv(s)
    ensures Boot(Apply(s, Crash))
  {}

  lemma Suffix(steps: seq<Step>, states: seq<State>, n: nat)
    requires IsRun(steps, states) && n < |states| && Boot(states[n])
    ensures IsRun(steps[n..], states[n..])
  {
    forall l | 0 <= l < |steps[n..]|
      ensures StepAt(steps[n..], states[n..], l)
    {
      assert StepAt(steps, states, n + l);
      assert steps[n..][l] == steps[n + l] && states[n..][l] == states[n + l]
          && states[n..][l + 1] == states[n + l + 1];
    }
  }

  /** After a crash the machine boots, and what follows is a run of its own. */
  lemma AfterCrash(steps: seq<Step>, states: seq<State>, k: nat, n: nat)
    requires IsRun(steps, states) && k < |steps| && steps[k].Crash? && n == k + 1
    ensures IsRun(steps[n..], states[n..])
    ensures states[n].m.logical == states[k].m.committed && states[n].m.g == states[k].m.g
  {
    RunInv(steps, states, k);
    assert StepAt(steps, states, k);
    CrashBoots(states[k]);
    Suffix(steps, states, n);
  }

  /** And it goes on from the version that the crash left. */
  lemma NextEpoch(sb: Super, v0: Fs, txs: seq<Tx>, steps: seq<Step>, states: seq<State>, k: nat, n: nat, txs': seq<Tx>,
                  m: nat)
    requires CarriesOut(sb, v0, txs, steps, states, k) && k < |steps| && steps[k].Crash? && n == k + 1
    requires Durable(steps, k) <= |txs| && History(sb, VersionAt(v0, txs, Durable(steps, k)), txs')
    requires m <= |steps[n..]| && Carries(sb, txs', steps[n..], states[n..], m)
    ensures CarriesOut(sb, VersionAt(v0, txs, Durable(steps, k)), txs', steps[n..], states[n..], m)
  {
    AfterCrash(steps, states, k, n);
    CommitsVersion(sb, v0, txs, steps, states, k);
    CommittedIs(steps, states, k);
    VersionSound(sb, v0, txs, Durable(steps, k));
    assert states[n..][0] == states[n];
  }

  /** What happens between two crashes: the transactions carried out, and the number of steps. */
  datatype Epoch = Epoch(txs: seq<Tx>, len: nat)

  /** A run with a crash after each epoch but the last, each starting from the version the one before it left. */
  ghost predicate CarriesAll(sb: Super, v0: Fs, epochs: seq<Epoch>, steps: seq<Step>, states: seq<State>)
    decreases |epochs|
  {
    && epochs != [] && epochs[0].len <= |steps| < |states|
    && var txs, len := epochs[0].txs, epochs[0].len;
    && History(sb, v0, txs) && Carries(sb, txs, steps, states, len)
    && if |epochs| == 1 then len == |steps|
       else
         && len < |steps| && steps[len].Crash? && Durable(steps, len) <= |txs|
         && CarriesAll(sb, VersionAt(v0, txs, Durable(steps, len)), epochs[1..], steps[len + 1..], states[len + 1..])
  }

  /** The version that is committed at the end. */
  ghost function Outcome(v0: Fs, epochs: seq<Epoch>, steps: seq<Step>): Fs
    decreases |epochs|
  {
    if epochs == [] || epochs[0].len > |steps| || Durable(steps, epochs[0].len) > |epochs[0].txs| then v0
    else
      var v := VersionAt(v0, epochs[0].txs, Durable(steps, epochs[0].len));
      if |epochs| == 1 || epochs[0].len == |steps| then v else Outcome(v, epochs[1..], steps[epochs[0].len + 1..])
  }

  /**
   However often power fails, during recovery or not, and whatever calls are made in between:
   the disk recovers to the version that the last commit left, which comes after the one that
   was recovered to before it.
   */
  lemma {:induction false} EveryCrash(sb: Super, v0: Fs, epochs: seq<Epoch>, steps: seq<Step>, states: seq<State>,
                                      home: Disk)
    requires IsRun(steps, states) && CarriesAll(sb, v0, epochs, steps, states)
    requires Sound(sb, v0) && DiskHolds(sb, v0, states[0].m.logical) && |states[0].m.logical| == sb.size
    requires Placed(sb, |v0.inodes|, states[0].m.g.start + states[0].m.g.size)
    requires RecoversTo(states[0].m.g, states[|steps|].m.disk, home)
    ensures DiskHolds(sb, Outcome(v0, epochs, steps), home)
    decreases |epochs|
  {
    var txs, len := epochs[0].txs, epochs[0].len;
    assert CarriesOut(sb, v0, txs, steps, states, len);
    if |epochs| == 1 {
      CrashLeavesVersion(sb, v0, txs, steps, states, len, home);
    } else {
      var v, n := VersionAt(v0, txs, Durable(steps, len)), len + 1;
      AfterCrash(steps, states, len, n);
      NextEpoch(sb, v0, txs, steps, states, len, n, epochs[1].txs, epochs[1].len);
      CommittedIs(steps, states, len);
      assert states[n..][|steps[n..]|] == states[|steps|];
      EveryCrash(sb, v, epochs[1..], steps[n..], states[n..], home);
    }
  }

  // ----- one call at a time -----

  /** A call begins when none is in progress, logs only its blocks, and ends with all of them as they should be. */
  ghost predicate SerialAt(sb: Super, txs: seq<Tx>, steps: seq<Step>, states: seq<State>, k: nat)
    requires k < |steps| < |states|
  {
    var m, c := states[k].m, Ended(steps, k);
    && !steps[k].Crash? && (steps[k].BeginOp? ==> m.outstanding == 0)
    && (steps[k].LogWrite? || steps[k].EndOp? ==> c < |txs|)
    && (steps[k].LogWrite? ==> Logs(states[k], steps[k]) <= txs[c].logged)
    && (steps[k].EndOp? ==>
          forall b :: b in txs[c].logged && b < |m.logical| ==> BlockHolds(sb, txs[c].after, b, m.logical[b]))
  }

  ghost predicate Serial(sb: Super, txs: seq<Tx>, steps: seq<Step>, states: seq<State>, n: nat)
    requires n <= |steps| < |states|
  {
    forall k :: 0 <= k < n ==> SerialAt(sb, txs, steps, states, k)
  }

  /** Since the call in progress began, it has logged its own blocks. */
  lemma {:induction false} SerialTouches(sb: Super, txs: seq<Tx>, steps: seq<Step>, states: seq<State>, n: nat)
    requires IsRun(steps, states) && n < |states| && Serial(sb, txs, steps, states, n)
    ensures states[n].m.outstanding <= 1 && SettledAt(steps, states, n) == Ended(steps, n)
    ensures Touched(steps, states, n) <= if Ended(steps, n) < |txs| then txs[Ended(steps, n)].logged else {}
  {
    if n > 0 {
      var k: nat := n - 1;
      SerialTouches(sb, txs, steps, states, k);
      assert StepAt(steps, states, k) && SerialAt(sb, txs, steps, states, k);
      StepLogs(states[k], steps[k]);
      OneStep(steps, states, k, n);
    }
  }

  lemma OneBlocks(txs: seq<Tx>, c: nat, n: nat)
    requires c < |txs| && n == c + 1
    ensures BlocksOf(txs, c, n) == txs[c].logged
  {
    assert BlocksOf(txs, c, c) == {};
  }

  /** Calls that do not overlap carry out the transactions if each of them does its own. */
  lemma SerialCarries(sb: Super, txs: seq<Tx>, steps: seq<Step>, states: seq<State>, n: nat)
    requires IsRun(steps, states) && n < |states| && Serial(sb, txs, steps, states, n)
    ensures Carries(sb, txs, steps, states, n)
  {
    forall k | 0 <= k < n
      ensures CarriesAt(sb, txs, steps, states, k)
    {
      assert SerialAt(sb, txs, steps, states, k);
      SerialTouches(sb, txs, steps, states, k);
      if steps[k].EndOp? {
        var c := Ended(steps, k);
        OneBlocks(txs, c, c + 1);
        assert Ended(steps, k + 1) == c + 1;
      }
    }
  }
}
