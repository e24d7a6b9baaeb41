/** Over every run: tracked Pods and the allocator agree on addresses, and failed creates give theirs back. */
module AddressSafety {
  import opened Common
  import opened Net
  import opened Status
  import opened Provider
  import opened Lifecycle
  import Ipam

  function Held(s: Sys, k: Key): Option<IP> { Lookup(s.ipam.byKey, k) }

  /** A live Pod reports the address the allocator holds for its key. */
  ghost predicate PodsBound(s: Sys) {
    forall k :: k in s.pods && s.pods[k].terminal.None? ==> Held(s, k) == Some(s.pods[k].status.podIP)
  }

  /** How the creator's binding relates to the one it found, at each point of CreatePod. */
  predicate CreatorBound(s: Sys, cr: Creator) {
    match cr.pc
    case Translated => Held(s, cr.key) == cr.before
    case Rejected => Held(s, cr.key) == cr.before
    case HadRead(had) => Held(s, cr.key) == cr.before && had == cr.before.Some?
    case Allocated(had, ip) => Held(s, cr.key) == Some(ip) && cr.before == if had then Some(ip) else None
    case Launched(had, ip, _, _, _) => Held(s, cr.key) == Some(ip) && cr.before == if had then Some(ip) else None
    case ArchRejected(had) => Held(s, cr.key).Some? && cr.before == if had then Held(s, cr.key) else None
    case Unwinding(had) => Held(s, cr.key).Some? && cr.before == if had then Held(s, cr.key) else None
  }

  ghost predicate CreatorOk(s: Sys) {
    s.creator.Some? ==>
      var cr := s.creator.value;
      && CreatorBound(s, cr)
      && (cr.before.Some? <==> cr.key in s.recovered)
      && (cr.key in s.pods ==> cr.pc.Unwinding? && s.pods[cr.key].terminal.Some?)
      && forall t :: t in s.deleters ==> s.deleters[t].key != cr.key
  }

  ghost predicate DeletersOk(s: Sys) {
    forall t :: t in s.deleters ==> t < s.nextThread && s.deleters[t].key !in s.pods
  }

  /** Someone answers for a held address: a tracked Pod, a create or delete under way, or startup recovery. */
  ghost predicate Owned(s: Sys, k: Key) {
    || k in s.pods
    || (s.creator.Some? && s.creator.value.key == k)
    || (exists t :: t in s.deleters && s.deleters[t] == Deleter(k, false))
    || k in s.recovered
  }

  ghost predicate NoLeak(s: Sys) {
    && s.recovered <= s.ipam.byKey.Keys
    && forall k :: k in s.ipam.byKey ==> Owned(s, k)
  }

  ghost predicate Addresses(c: Cidr, s: Sys) {
    && c.Valid() && c.width > 0
    && Ipam.Inv(c, s.ipam) && PodsBound(s) && CreatorOk(s) && DeletersOk(s) && NoLeak(s)
  }

  /** A held address is a real one. */
  lemma HeldNonEmpty(c: Cidr, s: Sys, k: Key)
    requires Addresses(c, s) && k in s.ipam.byKey
    ensures s.ipam.byKey[k] != []
  {
    assert s.ipam.byKey[k] in s.ipam.byIP;
  }

  lemma ReconcileKeepsIP(p: Pod, obs: seq<Obs>)
    requires p.terminal.None? ==> |p.containers| <= |obs|
    ensures var q := Reconcile(p, obs).0;
            q.terminal == p.terminal && (p.terminal.None? && p.status.podIP != [] ==> q.status.podIP == p.status.podIP)
  {
    if p.terminal.None? {
      ScanKeepsIP(p, obs, |p.containers|);
    }
  }

  /** A Pod changed without changing the address it reports, unless it became terminal. */
  lemma StoreAddresses(c: Cidr, s: Sys, t: Sys, k: Key, q: Pod)
    requires Addresses(c, s) && k in s.pods
    requires t == s.(pods := s.pods[k := q], restarters := t.restarters, nextThread := t.nextThread, commits := t.commits)
    requires t.nextThread >= s.nextThread
    requires q.terminal.None? ==> s.pods[k].terminal.None? && q.status.podIP == s.pods[k].status.podIP
    ensures Addresses(c, t)
  {
    forall j | j in t.ipam.byKey
      ensures Owned(t, j)
    {
      assert Owned(s, j);
    }
  }

  lemma PodAfterKeepsIP(s: Sys, st: Step, p: Pod)
    requires !IsCreate(st) && !IsDelete(st) && (IsRestart(st) ==> st.thread in s.restarters)
    requires st.Observe? && p.terminal.None? ==> |p.containers| <= |st.obs|
    requires st.RestartEnd? ==> s.restarters[st.thread].pc.Finishing?
    requires p.terminal.None? ==> p.status.podIP != []
    ensures var q := PodAfter(s, st, p);
            q.terminal.None? ==> p.terminal.None? && q.status.podIP == p.status.podIP
  {
    if st.Observe? {
      ReconcileKeepsIP(p, st.obs);
    }
  }

  lemma PodStepAddresses(c: Cidr, s: Sys, st: Step)
    requires Addresses(c, s) && Enabled(c, s, st) && !IsCreate(st) && !IsDelete(st)
    ensures Addresses(c, Next(c, s, st))
  {
    var k := StepKey(s, st);
    PodEffect(c, s, st);
    if k in s.pods {
      if s.pods[k].terminal.None? {
        HeldNonEmpty(c, s, k);
      }
      PodAfterKeepsIP(s, st, s.pods[k]);
      StoreAddresses(c, s, Next(c, s, st), k, PodAfter(s, st, s.pods[k]));
    } else {
      ThreadsOnly(c, s, Next(c, s, st));
    }
  }

  lemma ThreadsOnly(c: Cidr, s: Sys, t: Sys)
    requires Addresses(c, s) && s.nextThread <= t.nextThread
    requires t == s.(restarters := t.restarters, nextThread := t.nextThread, commits := t.commits)
    ensures Addresses(c, t)
  {
    forall j | j in t.ipam.byKey
      ensures Owned(t, j)
    {
      assert Owned(s, j);
    }
  }

  lemma DeleteBeginAddresses(c: Cidr, s: Sys, k: Key)
    requires Addresses(c, s) && Serial(s, DeleteBegin(k))
    ensures Addresses(c, NextDelete(s, DeleteBegin(k)))
  {
    var t := NextDelete(s, DeleteBegin(k));
    if k in s.pods {
      assert t.deleters[s.nextThread] == Deleter(k, false);
      forall j | j in t.ipam.byKey
        ensures Owned(t, j)
      {
        assert Owned(s, j);
        if x :| x in s.deleters && s.deleters[x] == Deleter(j, false) {
          assert t.deleters[x] == Deleter(j, false);
        }
      }
    }
  }

  lemma DeleteReleaseAddresses(c: Cidr, s: Sys, x: nat)
    requires Addresses(c, s) && x in s.deleters && !s.deleters[x].released
    ensures Addresses(c, NextDelete(s, DeleteRelease(x)))
  {
    var t := NextDelete(s, DeleteRelease(x));
    var k := s.deleters[x].key;
    Ipam.ReleaseInv(c, s.ipam, k);
    assert forall j :: j != k ==> Held(t, j) == Held(s, j);
    forall j | j in t.ipam.byKey
      ensures Owned(t, j)
    {
      assert j != k && Owned(s, j);
      if y :| y in s.deleters && s.deleters[y] == Deleter(j, false) {
        assert t.deleters[y] == Deleter(j, false);
      }
    }
  }

  lemma DeleteEndAddresses(c: Cidr, s: Sys, x: nat)
    requires Addresses(c, s) && x in s.deleters && s.deleters[x].released
    ensures Addresses(c, NextDelete(s, DeleteEnd(x)))
  {
    var t := NextDelete(s, DeleteEnd(x));
    forall j | j in t.ipam.byKey
      ensures Owned(t, j)
    {
      assert Owned(s, j);
      if y :| y in s.deleters && s.deleters[y] == Deleter(j, false) {
        assert t.deleters[y] == Deleter(j, false);
      }
    }
  }

  /** The creator moved, and the allocator and the Pods changed at most at its key. */
  ghost predicate AtKey(s: Sys, t: Sys, k: Key) {
    && t == s.(creator := t.creator, ipam := t.ipam, pods := t.pods, nextInc := t.nextInc)
    && (forall j :: j != k ==> Held(t, j) == Held(s, j))
    && (t.pods == s.pods || (k in t.pods && t.pods == s.pods[k := t.pods[k]]))
    && (s.creator.Some? ==> s.creator.value.key == k)
    && (t.creator.Some? ==> t.creator.value.key == k)
  }

  lemma CreatorNoLeak(s: Sys, t: Sys, k: Key)
    requires NoLeak(s) && AtKey(s, t, k)
    requires k in s.recovered ==> k in t.ipam.byKey
    requires k in t.ipam.byKey ==> Owned(t, k)
    ensures NoLeak(t)
  {
    forall j | j in t.ipam.byKey
      ensures Owned(t, j)
    {
      if j != k {
        assert Held(t, j) == Held(s, j);
        assert Owned(s, j);
      }
    }
    forall j | j in s.recovered
      ensures j in t.ipam.byKey
    {
      if j != k {
        assert Held(t, j) == Held(s, j);
      }
    }
  }

  lemma CreatorAddresses(c: Cidr, s: Sys, t: Sys, k: Key)
    requires Addresses(c, s) && AtKey(s, t, k)
    requires Ipam.Inv(c, t.ipam) && CreatorOk(t)
    requires k in s.recovered ==> k in t.ipam.byKey
    requires k in t.ipam.byKey ==> Owned(t, k)
    requires k in t.pods && t.pods[k].terminal.None? ==> Held(t, k) == Some(t.pods[k].status.podIP)
    requires k in t.pods && k !in s.pods ==> forall x :: x in s.deleters ==> s.deleters[x].key != k
    ensures Addresses(c, t)
  {
    CreatorNoLeak(s, t, k);
    forall j | j in t.pods && t.pods[j].terminal.None?
      ensures Held(t, j) == Some(t.pods[j].status.podIP)
    {
      if j != k {
        assert Held(t, j) == Held(s, j);
      }
    }
  }

  lemma BeginAddresses(c: Cidr, s: Sys, k: Key, spec: PodSpec, tr: Translation)
    requires Addresses(c, s) && s.creator.None? && Serial(s, CreateBegin(k, spec, tr))
    ensures Addresses(c, Begun(s, k, spec, tr))
  {
    if k in s.ipam.byKey {
      assert Owned(s, k);
    }
    CreatorAddresses(c, s, Begun(s, k, spec, tr), k);
  }

  lemma ReadHadAddresses(c: Cidr, s: Sys)
    requires Addresses(c, s) && Enabled(c, s, CreateReadHad)
    ensures Addresses(c, ReadHad(s))
  {
    CreatorAddresses(c, s, ReadHad(s), s.creator.value.key);
  }

  lemma AllocateAddresses(c: Cidr, s: Sys)
    requires Addresses(c, s) && Enabled(c, s, CreateAllocate)
    ensures Addresses(c, Assigned(c, s))
  {
    var k := s.creator.value.key;
    Ipam.AllocateInv(c, s.ipam, k);
    if k !in s.ipam.byKey && Ipam.AllocateSpec(c, s.ipam, k).0.Got? {
      Ipam.AllocateFresh(c, s.ipam, k);
    }
    CreatorAddresses(c, s, Assigned(c, s), k);
  }

  lemma AtAddresses(c: Cidr, s: Sys, pc: CreatePc)
    requires Addresses(c, s) && s.creator.Some? && CreatorBound(s, s.creator.value.(pc := pc))
    requires s.creator.value.key !in s.pods
    ensures Addresses(c, At(s, pc))
  {
    CreatorAddresses(c, s, At(s, pc), s.creator.value.key);
  }

  lemma LaunchAddresses(c: Cidr, s: Sys, env: LaunchEnv)
    requires Addresses(c, s) && s.creator.Some? && s.creator.value.pc.Allocated?
    ensures Addresses(c, LaunchStep(s, env))
  {
    var pc := s.creator.value.pc;
    match LaunchVM(pc.ip, env).outcome
    case Up(id, vmIP, attached) => AtAddresses(c, s, Launched(pc.had, pc.ip, id, vmIP, attached));
    case Down => AtAddresses(c, s, Unwinding(pc.had));
    case WrongArch => AtAddresses(c, s, ArchRejected(pc.had));
  }

  lemma RejectAddresses(c: Cidr, s: Sys)
    requires Addresses(c, s) && Enabled(c, s, CreateReject)
    ensures Addresses(c, RejectedPod(s))
  {
    CreatorAddresses(c, s, RejectedPod(s), s.creator.value.key);
  }

  lemma UnwindAddresses(c: Cidr, s: Sys)
    requires Addresses(c, s) && Enabled(c, s, CreateUnwind)
    ensures Addresses(c, Unwound(s))
  {
    var k := s.creator.value.key;
    Ipam.ReleaseInv(c, s.ipam, k);
    CreatorAddresses(c, s, Unwound(s), k);
  }

  lemma CommittedPod(s: Sys, obs: seq<Obs>)
    requires s.creator.Some? && s.creator.value.pc.Launched? && s.creator.value.pc.ip != []
    requires s.creator.value.spec.containers != [] && |s.creator.value.spec.containers| <= |obs|
    ensures var t := Committed(s, obs);
            var k := s.creator.value.key;
            && k in t.pods && t.pods[k].terminal.None? && t.pods[k].status.podIP == s.creator.value.pc.ip
            && t == s.(pods := s.pods[k := t.pods[k]], creator := None, nextInc := s.nextInc + 1,
                       restarters := t.restarters, nextThread := t.nextThread)
            && t.nextThread >= s.nextThread
  {
    var cr := s.creator.value;
    ReconcileKeepsIP(NewPod(s.nextInc, cr.spec, cr.pc.ip, cr.pc.id, cr.pc.vmIP, cr.pc.attached), obs);
  }

  lemma CommitAddresses(c: Cidr, s: Sys, obs: seq<Obs>)
    requires Addresses(c, s) && s.creator.Some? && s.creator.value.pc.Launched?
    requires s.creator.value.spec.containers != [] && |s.creator.value.spec.containers| <= |obs|
    ensures Addresses(c, Committed(s, obs))
  {
    var t := Committed(s, obs);
    var cr := s.creator.value;
    HeldNonEmpty(c, s, cr.key);
    CommittedPod(s, obs);
    var u := s.(pods := t.pods, creator := None, nextInc := t.nextInc);
    CreatorAddresses(c, s, u, cr.key);
    StoreAddresses(c, u, t, cr.key, t.pods[cr.key]);
  }

  lemma CreateStepAddresses(c: Cidr, s: Sys, st: Step)
    requires Addresses(c, s) && Enabled(c, s, st) && Serial(s, st) && IsCreate(st)
    ensures Addresses(c, NextCreate(c, s, st))
  {
    match st
    case CreateBegin(k, spec, tr) => BeginAddresses(c, s, k, spec, tr);
    case CreateReject => RejectAddresses(c, s);
    case CreateReadHad => ReadHadAddresses(c, s);
    case CreateAllocate => AllocateAddresses(c, s);
    case CreateLaunch(env) => LaunchAddresses(c, s, env);
    case CreateCommit(obs) => CommitAddresses(c, s, obs);
    case CreateUnwind => UnwindAddresses(c, s);
  }

  lemma StepAddresses(c: Cidr, s: Sys, st: Step)
    requires Addresses(c, s) && Enabled(c, s, st) && Serial(s, st)
    ensures Addresses(c, Next(c, s, st))
  {
    if IsCreate(st) {
      CreateStepAddresses(c, s, st);
    } else if st.DeleteBegin? {
      DeleteBeginAddresses(c, s, st.key);
    } else if st.DeleteRelease? {
      DeleteReleaseAddresses(c, s, st.thread);
    } else if st.DeleteEnd? {
      DeleteEndAddresses(c, s, st.thread);
    } else {
      PodStepAddresses(c, s, st);
    }
  }

  lemma {:induction false} RunAddresses(c: Cidr, need: Assume, s: Sys, steps: seq<Step>)
    requires Addresses(c, s) && need.serial && Legal(c, need, s, steps)
    ensures Addresses(c, Run(c, need, s, steps))
    decreases |steps|
  {
    if steps != [] {
      StepAddresses(c, s, steps[0]);
      RunAddresses(c, need, Next(c, s, steps[0]), steps[1..]);
    }
  }

  /**
   * With create and delete of one key serialised and different keys interleaving freely: a live Pod's status
   * carries the address the allocator holds for its key, no two live Pods share one, and every held address
   * belongs to a tracked Pod, to a create or delete under way, or to startup recovery.
   */
  lemma AddressesExact(c: Cidr, need: Assume, s: Sys, steps: seq<Step>)
    requires Init(c, s) && need.serial && Legal(c, need, s, steps)
    ensures var t := Run(c, need, s, steps);
            && (forall k :: k in t.pods && t.pods[k].terminal.None? ==>
                  Held(t, k) == Some(t.pods[k].status.podIP) && Ipam.Usable(c, t.pods[k].status.podIP))
            && (forall j, k :: j in t.pods && k in t.pods && j != k && t.pods[j].terminal.None? && t.pods[k].terminal.None?
                  ==> t.pods[j].status.podIP != t.pods[k].status.podIP)
            && (forall k :: k in t.ipam.byKey ==> Owned(t, k))
  {
    RunAddresses(c, need, s, steps);
    var t := Run(c, need, s, steps);
    assert forall k :: k in t.ipam.byKey ==> t.ipam.byKey[k] in t.ipam.byIP && t.ipam.byIP[t.ipam.byKey[k]] == k;
  }

  lemma UnwindRestores(s: Sys)
    requires s.creator.Some? && s.creator.value.pc.Unwinding? && CreatorBound(s, s.creator.value)
    ensures Held(Unwound(s), s.creator.value.key) == s.creator.value.before
  {
  }

  lemma RejectRestores(s: Sys)
    requires s.creator.Some? && s.creator.value.pc.Rejected? && CreatorBound(s, s.creator.value)
    ensures Held(RejectedPod(s), s.creator.value.key) == s.creator.value.before
  {
    assert RejectedPod(s).ipam == s.ipam;
  }

  lemma ExhaustedRestores(c: Cidr, s: Sys)
    requires Enabled(c, s, CreateAllocate) && CreatorBound(s, s.creator.value) && Assigned(c, s).creator.None?
    ensures Held(Assigned(c, s), s.creator.value.key) == s.creator.value.before
  {
    assert Assigned(c, s).ipam == s.ipam;
  }

  /** The only ways for a create to end without storing a live Pod. */
  lemma EndsHere(c: Cidr, s: Sys, st: Step)
    requires Enabled(c, s, st) && IsCreate(st) && s.creator.Some? && !st.CreateCommit? && NextCreate(c, s, st).creator.None?
    ensures st.CreateAllocate? || st.CreateUnwind? || (st.CreateReject? && s.creator.value.pc.Rejected?)
  {
  }

  lemma EndRestores(c: Cidr, s: Sys, st: Step)
    requires Enabled(c, s, st) && IsCreate(st)
    requires s.creator.Some? && CreatorBound(s, s.creator.value) && !st.CreateCommit? && NextCreate(c, s, st).creator.None?
    ensures Held(NextCreate(c, s, st), s.creator.value.key) == s.creator.value.before
  {
    EndsHere(c, s, st);
    match st
    case CreateReject => RejectRestores(s);
    case CreateAllocate => ExhaustedRestores(c, s);
    case CreateUnwind => UnwindRestores(s);
  }

  /** Only CreatePod's own steps move the creator. */
  lemma CreatorAlone(c: Cidr, s: Sys, st: Step)
    requires Enabled(c, s, st) && !IsCreate(st)
    ensures Next(c, s, st).creator == s.creator
  {
  }

  /**
   * However a CreatePod ends other than by storing a live Pod, its key's binding is the one it found on entry,
   * recovered reservations included.
   */
  lemma FailedCreateRestores(c: Cidr, need: Assume, s: Sys, steps: seq<Step>, st: Step)
    requires Init(c, s) && need.serial && Legal(c, need, s, steps)
    requires var t := Run(c, need, s, steps);
             Enabled(c, t, st) && t.creator.Some? && !st.CreateCommit? && Next(c, t, st).creator.None?
    ensures var t := Run(c, need, s, steps);
            Held(Next(c, t, st), t.creator.value.key) == t.creator.value.before
  {
    RunAddresses(c, need, s, steps);
    var t := Run(c, need, s, steps);
    if IsCreate(st) {
      EndRestores(c, t, st);
    } else {
      CreatorAlone(c, t, st);
    }
  }

  /** A create touches no other key's binding. */
  lemma CreateFrame(c: Cidr, s: Sys, st: Step, j: Key)
    requires c.Valid() && Ipam.Inv(c, s.ipam) && Enabled(c, s, st) && IsCreate(st)
    requires s.creator.Some? ==> s.creator.value.key != j
    ensures Held(NextCreate(c, s, st), j) == Held(s, j)
  {
    match st
    case CreateBegin(k, spec, tr) => assert Begun(s, k, spec, tr).ipam == s.ipam;
    case CreateReject => assert RejectedPod(s).ipam == s.ipam;
    case CreateReadHad => assert ReadHad(s).ipam == s.ipam;
    case CreateAllocate => AllocateElsewhere(c, s.ipam, s.creator.value.key, j);
    case CreateLaunch(env) => assert LaunchStep(s, env).ipam == s.ipam;
    case CreateCommit(obs) => assert Committed(s, obs).ipam == s.ipam;
    case CreateUnwind => assert Held(Unwound(s), j) == Held(s, j);
  }

  lemma AllocateElsewhere(c: Cidr, a: Ipam.State, k: Key, j: Key)
    requires c.Valid() && Ipam.Inv(c, a) && j != k
    ensures Lookup(Ipam.AllocateSpec(c, a, k).1.byKey, j) == Lookup(a.byKey, j)
  {
    if k !in a.byKey && Ipam.AllocateSpec(c, a, k).0.Got? {
      Ipam.AllocateFresh(c, a, k);
    }
  }
}
