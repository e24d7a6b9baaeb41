/** Over every run: one restart goroutine per raised flag, and a restart count that counts its commits. */
module RestartSafety {
  import opened Common
  import opened Net
  import opened Status
  import opened Provider
  import opened Lifecycle

  /** What holds of one tracked Pod. */
  ghost predicate PodOk(s: Sys, k: Key)
    requires k in s.pods
  {
    var p := s.pods[k];
    && p.inc < s.nextInc
    && (p.restarting <==> Busy(s, k))
    && (p.restarting ==> p.policy != Never && p.terminal.None?)
    && (p.containers != [] ==> Count(p.restarts, p.containers[0]) == Commits(s, p.inc))
  }

  /** Threads and Pods carry numbers already handed out. */
  ghost predicate Numbered(s: Sys) {
    && (forall t :: t in s.restarters ==> t < s.nextThread && s.restarters[t].inc < s.nextInc)
    && (forall i :: i in s.commits ==> i < s.nextInc)
  }

  /** At most one restart is in flight per key, and a tracked Pod's is its own. */
  ghost predicate OneRestart(s: Sys) {
    && (forall t, u, k :: InFlight(s, t, k) && InFlight(s, u, k) ==> t == u)
    && (forall t, k :: InFlight(s, t, k) && k in s.pods ==> s.restarters[t].inc == s.pods[k].inc)
  }

  /** The key being created is neither tracked nor restarting until it is stored. */
  ghost predicate CreatorFresh(s: Sys) {
    s.creator.Some? && !s.creator.value.pc.Unwinding? ==>
      s.creator.value.key !in s.pods && !Busy(s, s.creator.value.key)
  }

  /** No two tracked Pods are the same incarnation. */
  ghost predicate Apart(s: Sys) {
    forall j, k :: j in s.pods && k in s.pods && j != k ==> s.pods[j].inc != s.pods[k].inc
  }

  ghost predicate Flags(s: Sys) {
    && Numbered(s) && OneRestart(s) && CreatorFresh(s) && Apart(s)
    && forall k :: k in s.pods ==> PodOk(s, k)
  }

  /** `t` agrees with `s` on everything a restart flag depends on, for every key. */
  ghost predicate SameFlags(s: Sys, t: Sys) {
    && t.restarters == s.restarters && t.commits == s.commits && t.nextThread >= s.nextThread && t.nextInc == s.nextInc
    && t.pods.Keys <= s.pods.Keys
    && forall k :: k in t.pods ==> SameFlag(s.pods[k], t.pods[k])
  }

  predicate SameFlag(p: Pod, q: Pod) {
    && q.inc == p.inc && q.restarting == p.restarting && q.policy == p.policy && q.restarts == p.restarts
    && q.containers == p.containers && (q.terminal.Some? ==> p.terminal.Some? || !p.restarting)
  }

  lemma SameFlagsKeeps(s: Sys, t: Sys)
    requires Flags(s) && SameFlags(s, t) && t.creator == s.creator
    ensures Flags(t)
  {
    assert forall u, k :: InFlight(t, u, k) <==> InFlight(s, u, k);
    assert forall k :: Busy(t, k) <==> Busy(s, k);
    forall k | k in t.pods
      ensures PodOk(t, k)
    {
      assert PodOk(s, k);
    }
  }

  /** `q` may replace `p` in the table: only the flag and the status moved, and the flag only up. */
  predicate MayReplace(p: Pod, q: Pod, spawn: Option<Spawn>) {
    && q.inc == p.inc && q.policy == p.policy && q.restarts == p.restarts && q.containers == p.containers
    && (p.restarting ==> q.restarting)
    && (spawn.Some? <==> q.restarting && !p.restarting)
    && (q.restarting ==> q.policy != Never && q.terminal.None?)
  }

  /** A section that updates one Pod and launches a restart exactly when it raises the flag. */
  lemma StoreKeeps(s: Sys, k: Key, q: Pod, spawn: Option<Spawn>)
    requires Flags(s) && k in s.pods && MayReplace(s.pods[k], q, spawn)
    ensures Flags(StorePod(s, k, (q, spawn)))
  {
    var t := StorePod(s, k, (q, spawn));
    assert PodOk(s, k);
    if spawn.None? {
      SameFlagsKeeps(s, t);
    } else {
      assert OneMore(s, t, k, q.inc);
      LaunchKeeps(s, t, k, q.inc);
      forall j | j in t.pods
        ensures PodOk(t, j)
      {
        LaunchPod(s, t, k, q, j);
      }
    }
  }

  lemma LaunchPod(s: Sys, t: Sys, k: Key, q: Pod, j: Key)
    requires OneMore(s, t, k, q.inc) && t.pods == s.pods[k := q] && k in s.pods && j in t.pods
    requires t.nextInc == s.nextInc && t.commits == s.commits && Busy(t, k)
    requires PodOk(s, j) && PodOk(s, k)
    requires MayReplace(s.pods[k], q, Some(Spawn("", 0)))
    ensures PodOk(t, j)
  {
    if j != k {
      BusyElsewhere(s, t, k, q.inc, j);
    }
  }

  /** `t` has one restarter more than `s`, for key `k`. */
  ghost predicate OneMore(s: Sys, t: Sys, k: Key, inc: nat) {
    && s.nextThread !in s.restarters
    && t.restarters.Keys == s.restarters.Keys + {s.nextThread}
    && (forall u :: u in s.restarters ==> t.restarters[u] == s.restarters[u])
    && t.restarters[s.nextThread].key == k && t.restarters[s.nextThread].inc == inc
    && t.restarters[s.nextThread].pc.Backoff?
  }

  lemma BusyElsewhere(s: Sys, t: Sys, k: Key, inc: nat, j: Key)
    requires OneMore(s, t, k, inc) && j != k
    ensures Busy(t, j) <==> Busy(s, j)
  {
    assert forall u :: InFlight(t, u, j) <==> InFlight(s, u, j);
  }

  lemma LaunchKeeps(s: Sys, t: Sys, k: Key, inc: nat)
    requires Numbered(s) && OneRestart(s) && CreatorFresh(s) && !Busy(s, k)
    requires t.nextThread == s.nextThread + 1 && t.nextInc >= s.nextInc && inc < t.nextInc && t.commits == s.commits
    requires s.nextThread !in s.restarters && OneMore(s, t, k, inc)
    requires k in t.pods && t.pods[k].inc == inc
    requires forall j :: j in t.pods && j != k ==> j in s.pods && t.pods[j].inc == s.pods[j].inc
    requires t.creator.None? || t.creator.value.pc.Unwinding? || (t.creator == s.creator && t.creator.value.key != k)
    ensures Numbered(t) && OneRestart(t) && CreatorFresh(t) && Busy(t, k)
  {
    assert InFlight(t, s.nextThread, k);
    assert forall u, j :: InFlight(t, u, j) <==> InFlight(s, u, j) || (u == s.nextThread && j == k);
    assert t.creator.Some? && t.creator.value.key != k ==>
        (Busy(t, t.creator.value.key) <==> Busy(s, t.creator.value.key));
  }

  lemma ObserveKeeps(s: Sys, k: Key, obs: seq<Obs>)
    requires Flags(s) && k in s.pods
    requires s.pods[k].terminal.None? ==> |s.pods[k].containers| <= |obs|
    ensures Flags(StorePod(s, k, Reconcile(s.pods[k], obs)))
  {
    var p := s.pods[k];
    assert PodOk(s, k);
    if p.terminal.None? {
      SpawnRaisesFlag(p, obs, |p.containers|);
    }
    var (q, spawn) := Reconcile(p, obs);
    StoreKeeps(s, k, q, spawn);
  }

  lemma FailProbeMayReplace(p: Pod, name: string)
    requires p.restarting ==> p.policy != Never && p.terminal.None?
    ensures var (q, spawn) := FailProbe(p, name); MayReplace(p, q, spawn)
  {
  }

  lemma ProbeFailedKeeps(s: Sys, k: Key, name: string)
    requires Flags(s) && k in s.pods
    ensures Flags(StorePod(s, k, FailProbe(s.pods[k], name)))
  {
    assert PodOk(s, k);
    FailProbeMayReplace(s.pods[k], name);
    var (q, spawn) := FailProbe(s.pods[k], name);
    StoreKeeps(s, k, q, spawn);
  }

  /** A Pod not yet restarted, stored under a key that is neither tracked nor restarting, with no restart of its own. */
  lemma IdlePodKeeps(s: Sys, t: Sys, k: Key, q: Pod)
    requires Flags(s) && k !in s.pods && !Busy(s, k)
    requires t == s.(pods := s.pods[k := q], nextInc := s.nextInc + 1, creator := t.creator)
    requires t.creator.None? || t.creator.value.pc.Unwinding?
    requires q.inc == s.nextInc && q.restarts == map[] && !q.restarting
    ensures Flags(t)
  {
    assert forall u, j :: InFlight(t, u, j) <==> InFlight(s, u, j);
    assert forall j :: Busy(t, j) <==> Busy(s, j);
    forall j | j in t.pods && j != k
      ensures PodOk(t, j)
    {
      assert PodOk(s, j);
    }
  }

  /** And one that needs a restart at once. */
  lemma RestartingPodKeeps(s: Sys, t: Sys, k: Key, q: Pod, spawn: Spawn)
    requires Flags(s) && k !in s.pods && !Busy(s, k)
    requires t == Spawned(s.(pods := s.pods[k := q], nextInc := s.nextInc + 1, creator := t.creator), k, q.inc, Some(spawn))
    requires t.creator.None? || t.creator.value.pc.Unwinding?
    requires q.inc == s.nextInc && q.restarts == map[] && q.restarting && q.policy != Never && q.terminal.None?
    ensures Flags(t)
  {
    LaunchKeeps(s, t, k, q.inc);
    forall j | j in t.pods && j != k
      ensures PodOk(t, j)
    {
      assert PodOk(s, j);
      BusyElsewhere(s, t, k, q.inc, j);
    }
  }

  /** A Pod stored under a key that is neither tracked nor restarting. */
  lemma FreshPodKeeps(s: Sys, t: Sys, k: Key, q: Pod, spawn: Option<Spawn>)
    requires Flags(s) && k !in s.pods && !Busy(s, k)
    requires t == Spawned(s.(pods := s.pods[k := q], nextInc := s.nextInc + 1, creator := t.creator), k, q.inc, spawn)
    requires t.creator.None? || t.creator.value.pc.Unwinding?
    requires q.inc == s.nextInc && q.restarts == map[]
    requires q.restarting <==> spawn.Some?
    requires q.restarting ==> q.policy != Never && q.terminal.None?
    ensures Flags(t)
  {
    match spawn
    case None => IdlePodKeeps(s, t, k, q);
    case Some(sp) => RestartingPodKeeps(s, t, k, q, sp);
  }

  lemma CommitSpawn(p: Pod, obs: seq<Obs>)
    requires p.terminal.None? && !p.restarting && |p.containers| <= |obs|
    ensures var (q, spawn) := CommitPod(p, obs);
            && q.inc == p.inc && q.restarts == p.restarts && q.policy == p.policy && q.terminal.None?
            && q.containers == p.containers
            && (q.restarting <==> spawn.Some?) && (q.restarting ==> q.policy != Never)
  {
    SpawnRaisesFlag(p, obs, |p.containers|);
  }

  /** Only the creator's own bookkeeping and the allocator changed. */
  lemma CreatorMoves(s: Sys, t: Sys)
    requires Flags(s) && t == s.(creator := t.creator, ipam := t.ipam)
    requires t.creator.Some? && !t.creator.value.pc.Unwinding? ==>
               t.creator.value.key !in s.pods && !Busy(s, t.creator.value.key)
    ensures Flags(t)
  {
    assert forall u, k :: InFlight(t, u, k) <==> InFlight(s, u, k);
    assert forall k :: Busy(t, k) <==> Busy(s, k);
    forall k | k in t.pods
      ensures PodOk(t, k)
    {
      assert PodOk(s, k);
    }
  }

  lemma CommitKeeps(s: Sys, obs: seq<Obs>)
    requires Flags(s) && s.creator.Some? && s.creator.value.pc.Launched?
    requires s.creator.value.spec.containers != [] && |s.creator.value.spec.containers| <= |obs|
    ensures Flags(Committed(s, obs))
  {
    var cr := s.creator.value;
    var p := NewPod(s.nextInc, cr.spec, cr.pc.ip, cr.pc.id, cr.pc.vmIP, cr.pc.attached);
    CommitSpawn(p, obs);
    var (q, spawn) := CommitPod(p, obs);
    FreshPodKeeps(s, Committed(s, obs), cr.key, q, spawn);
  }

  lemma RejectKeeps(s: Sys)
    requires Flags(s) && s.creator.Some? && (s.creator.value.pc.Rejected? || s.creator.value.pc.ArchRejected?)
    ensures Flags(RejectedPod(s))
  {
    var cr := s.creator.value;
    FreshPodKeeps(s, RejectedPod(s), cr.key, RejectedPod(s).pods[cr.key], None);
  }

  lemma DeleteKeeps(c: Cidr, s: Sys, st: Step)
    requires Flags(s) && Enabled(c, s, st) && (st.DeleteBegin? || st.DeleteRelease? || st.DeleteEnd?)
    ensures Flags(Next(c, s, st))
  {
    var t := Next(c, s, st);
    SameFlagsKeeps(s, t);
  }

  /** A goroutine leaves: its key is no longer busy, every other key is as before. */
  lemma RestarterGone(s: Sys, t: Sys, x: nat)
    requires OneRestart(s) && x in s.restarters && !s.restarters[x].pc.Reaping?
    requires t.restarters.Keys <= s.restarters.Keys
    requires x in t.restarters ==> t.restarters[x].pc.Reaping?
    requires forall u :: u in s.restarters && u != x ==> u in t.restarters && t.restarters[u] == s.restarters[u]
    ensures !Busy(t, s.restarters[x].key)
    ensures forall k :: k != s.restarters[x].key ==> (Busy(t, k) <==> Busy(s, k))
    ensures forall u, k :: InFlight(t, u, k) ==> InFlight(s, u, k) && u != x
  {
    var key := s.restarters[x].key;
    assert InFlight(s, x, key);
    assert forall u :: InFlight(t, u, key) ==> InFlight(s, u, key) && u != x;
    forall k | k != key
      ensures Busy(t, k) <==> Busy(s, k)
    {
      assert forall u :: InFlight(t, u, k) <==> InFlight(s, u, k);
    }
  }

  /** A goroutine moves on without leaving: nothing a flag depends on has changed. */
  lemma RestarterMoves(s: Sys, t: Sys, x: nat)
    requires Flags(s) && x in s.restarters && t == s.(pods := t.pods, restarters := t.restarters)
    requires t.restarters.Keys == s.restarters.Keys
    requires forall u :: u in s.restarters ==>
               var a, b := s.restarters[u], t.restarters[u];
               a.key == b.key && a.inc == b.inc && (a.pc.Reaping? <==> b.pc.Reaping?)
    requires t.pods.Keys == s.pods.Keys && forall k :: k in t.pods ==> SameFlag(s.pods[k], t.pods[k])
    ensures Flags(t)
  {
    assert forall u, k :: InFlight(t, u, k) <==> InFlight(s, u, k);
    assert forall k :: Busy(t, k) <==> Busy(s, k);
    forall k | k in t.pods
      ensures PodOk(t, k)
    {
      assert PodOk(s, k);
    }
  }

  lemma RestartBeginKeeps(s: Sys, x: nat)
    requires Flags(s) && x in s.restarters && s.restarters[x].pc.Backoff?
    ensures Flags(NextRestart(s, RestartBegin(x)))
  {
    var key := s.restarters[x].key;
    var t := NextRestart(s, RestartBegin(x));
    assert InFlight(s, x, key);
    if key in s.pods {
      assert PodOk(s, key);
    }
    if GivesUp(s.pods, key) {
      RestarterGone(s, t, x);
      forall k | k in t.pods
        ensures PodOk(t, k)
      {
        assert PodOk(s, k);
      }
    } else {
      RestarterMoves(s, t, x);
    }
  }

  /** A committed or failed restart, seen from the Pod it found. */
  lemma FinishedPod(p: Pod, oldId: string, newId: Option<string>, attached: bool, vmIP: IP)
    ensures var q := FinishPod(p, oldId, newId, attached, vmIP);
            && q.inc == p.inc && q.containers == p.containers && q.policy == p.policy && q.terminal == p.terminal
            && !q.restarting
            && (p.containers != [] ==>
                  Count(q.restarts, p.containers[0]) == Count(p.restarts, p.containers[0]) + if newId.Some? then 1 else 0)
  {
  }

  lemma RestartEndKeeps(s: Sys, x: nat)
    requires Flags(s) && x in s.restarters && s.restarters[x].pc.Finishing?
    ensures Flags(NextRestart(s, RestartEnd(x)))
  {
    var r := s.restarters[x];
    var t := NextRestart(s, RestartEnd(x));
    assert InFlight(s, x, r.key);
    RestarterGone(s, t, x);
    if r.key in s.pods {
      FinishedPod(s.pods[r.key], r.oldId, r.pc.newId, r.pc.attached, r.pc.vmIP);
      EndFound(s, t, x);
    } else {
      EndGone(s, t, x);
    }
  }

  lemma EndGone(s: Sys, t: Sys, x: nat)
    requires Flags(s) && x in s.restarters && s.restarters[x].key !in s.pods
    requires t == s.(restarters := t.restarters) && t.restarters.Keys <= s.restarters.Keys
    requires forall u :: u in t.restarters ==> t.restarters[u].inc == s.restarters[u].inc
    requires forall k :: k != s.restarters[x].key ==> (Busy(t, k) <==> Busy(s, k))
    requires !Busy(t, s.restarters[x].key)
    requires forall u, k :: InFlight(t, u, k) ==> InFlight(s, u, k) && u != x
    ensures Flags(t)
  {
    forall k | k in t.pods
      ensures PodOk(t, k)
    {
      assert PodOk(s, k);
    }
  }

  lemma EndFound(s: Sys, t: Sys, x: nat)
    requires Flags(s) && x in s.restarters && s.restarters[x].key in s.pods && s.restarters[x].pc.Finishing?
    requires var r := s.restarters[x];
             var p, done := s.pods[r.key], r.pc.newId.Some?;
             && r.key in t.pods
             && t == s.(restarters := s.restarters - {x}, pods := s.pods[r.key := t.pods[r.key]], commits := t.commits)
             && t.commits == (if done then s.commits[r.inc := Commits(s, r.inc) + 1] else s.commits)
             && var q := t.pods[r.key];
             && q.inc == p.inc && q.containers == p.containers && q.policy == p.policy && q.terminal == p.terminal
             && !q.restarting
             && (p.containers != [] ==>
                   Count(q.restarts, p.containers[0]) == Count(p.restarts, p.containers[0]) + if done then 1 else 0)
    requires forall k :: k != s.restarters[x].key ==> (Busy(t, k) <==> Busy(s, k))
    requires !Busy(t, s.restarters[x].key)
    requires forall u, k :: InFlight(t, u, k) ==> InFlight(s, u, k) && u != x
    ensures Flags(t)
  {
    var r := s.restarters[x];
    assert InFlight(s, x, r.key);
    assert PodOk(s, r.key);
    forall k | k in t.pods
      ensures PodOk(t, k)
    {
      assert PodOk(s, k);
      assert k != r.key ==> s.pods[k].inc != r.inc;
    }
  }

  /* ---- every step, every run ---- */

  lemma SetProbesKeeps(s: Sys, k: Key, flags: ProbeFlags)
    requires Flags(s) && k in s.pods
    ensures Flags(SetProbes(s, k, flags))
  {
    SameFlagsKeeps(s, SetProbes(s, k, flags));
  }

  lemma PodStepKeeps(c: Cidr, s: Sys, st: Step)
    requires Flags(s) && Enabled(c, s, st)
    requires st.Observe? || st.ProbeFailed? || st.StartupPassed? || st.ReadinessSet?
    ensures Flags(Next(c, s, st))
  {
    if st.Observe? {
      if st.key in s.pods {
        ObserveKeeps(s, st.key, st.obs);
      }
    } else if st.ProbeFailed? {
      if st.key in s.pods {
        ProbeFailedKeeps(s, st.key, st.container);
      }
    } else if Probing(s, st.key) {
      var flags := s.pods[st.key].probes.value;
      SetProbesKeeps(s, st.key, if st.StartupPassed? then flags.(startupDone := true) else flags.(ready := st.ready));
    }
  }

  lemma RestartStepKeeps(c: Cidr, s: Sys, st: Step)
    requires Flags(s) && Enabled(c, s, st)
    requires st.RestartBegin? || st.RestartWork? || st.RestartEnd? || st.RestartReap?
    ensures Flags(Next(c, s, st))
  {
    match st {
      case RestartBegin(x) => RestartBeginKeeps(s, x);
      case RestartWork(x, w) => RestarterMoves(s, NextRestart(s, st), x);
      case RestartEnd(x) => RestartEndKeeps(s, x);
      case RestartReap(x) => ReapKeeps(s, x);
    }
  }

  lemma CreateStepKeeps(c: Cidr, s: Sys, st: Step)
    requires Flags(s) && Enabled(c, s, st) && Settled(s, st) && IsCreate(st)
    ensures Flags(Next(c, s, st))
  {
    if st.CreateReject? {
      RejectKeeps(s);
    } else if st.CreateCommit? {
      CommitKeeps(s, st.obs);
    } else {
      CreateEffect(c, s, st);
      CreatorMoves(s, NextCreate(c, s, st));
    }
  }

  lemma StepKeeps(c: Cidr, s: Sys, st: Step)
    requires Flags(s) && Enabled(c, s, st) && Settled(s, st)
    ensures Flags(Next(c, s, st))
  {
    if st.Observe? || st.ProbeFailed? || st.StartupPassed? || st.ReadinessSet? {
      PodStepKeeps(c, s, st);
    } else if st.RestartBegin? || st.RestartWork? || st.RestartEnd? || st.RestartReap? {
      RestartStepKeeps(c, s, st);
    } else if st.DeleteBegin? || st.DeleteRelease? || st.DeleteEnd? {
      DeleteKeeps(c, s, st);
    } else {
      CreateStepKeeps(c, s, st);
    }
  }

  lemma ReapKeeps(s: Sys, x: nat)
    requires Flags(s) && x in s.restarters && s.restarters[x].pc.Reaping?
    ensures Flags(NextRestart(s, RestartReap(x)))
  {
    var t := NextRestart(s, RestartReap(x));
    assert forall u, k :: InFlight(t, u, k) <==> InFlight(s, u, k);
    assert forall k :: Busy(t, k) <==> Busy(s, k);
    forall k | k in t.pods
      ensures PodOk(t, k)
    {
      assert PodOk(s, k);
    }
  }

  lemma {:induction false} RunKeeps(c: Cidr, need: Assume, s: Sys, steps: seq<Step>)
    requires Flags(s) && need.settled && Legal(c, need, s, steps)
    ensures Flags(Run(c, need, s, steps))
    decreases |steps|
  {
    if steps != [] {
      StepKeeps(c, s, steps[0]);
      RunKeeps(c, need, Next(c, s, steps[0]), steps[1..]);
    }
  }

  /**
   * In every interleaving in which no key is created again while a restart under it is in flight, a tracked
   * Pod is flagged as restarting exactly when one restart goroutine of its own is in flight, there are never
   * two, and its restart count is the number of restarts those goroutines committed.
   */
  lemma RestartFlagExact(c: Cidr, need: Assume, s: Sys, steps: seq<Step>, k: Key)
    requires Init(c, s) && need.settled && Legal(c, need, s, steps)
    requires k in Run(c, need, s, steps).pods
    ensures var t := Run(c, need, s, steps);
            var p := t.pods[k];
            && (p.restarting <==> exists x :: InFlight(t, x, k) && t.restarters[x].inc == p.inc)
            && (forall x, y :: InFlight(t, x, k) && InFlight(t, y, k) ==> x == y)
            && (p.containers != [] ==> Count(p.restarts, p.containers[0]) == Commits(t, p.inc))
  {
    RunKeeps(c, need, s, steps);
    assert PodOk(Run(c, need, s, steps), k);
  }
}
