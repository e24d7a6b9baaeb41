/**
 * Over every run: whether each endpoint at the router has someone left to take it down. The router keeps endpoints by Pod
 * key; creates and restarts attach them, restarts and deletes detach them, all outside the provider's lock.
 */
module EndpointSafety {
  import opened Common
  import opened Net
  import opened Status
  import opened Provider
  import opened Lifecycle
  import H = VmHarm

  /**
   * `eps` are the keys with an endpoint, `was` whether a restart found its Pod attached when it began, `leaving` whether a
   * delete did.
   */
  datatype Node = Node(sys: Sys, eps: set<Key>, was: map<nat, bool>, leaving: map<nat, bool>)

  predicate Flag(m: map<nat, bool>, x: nat) { x in m && m[x] }

  /** The launch gets as far as attaching its VM. */
  predicate Attaches(ip: IP, env: LaunchEnv) {
    && env.podNet && ip != [] && env.vmIP != []
    && match env.found
       case Present(_, phase) => phase != Created || env.startOk
       case _ => env.authOk && env.pull == PullOk && env.created.Some? && env.startOk
  }

  predicate Reattaches(ip: IP, w: WorkEnv) { w.created.Some? && w.startOk && w.podNet && ip != [] && w.vmIP != [] }

  /** `stuck`: an attach that fails does so in loading the rules, after the router has recorded the endpoint. */
  function EpsAfter(v: Node, st: Step, stuck: bool): set<Key> {
    var s := v.sys;
    match st
    case CreateLaunch(env) =>
      if s.creator.Some? && s.creator.value.pc.Allocated? && Attaches(s.creator.value.pc.ip, env) && (env.attachOk || stuck)
      then v.eps + {s.creator.value.key} else v.eps
    case RestartWork(x, w) =>
      if x in s.restarters && s.restarters[x].pc.Working? then
        var k := s.restarters[x].key;
        var left := if Flag(v.was, x) then v.eps - {k} else v.eps;
        if Reattaches(s.restarters[x].pc.podIP, w) && (w.attachOk || stuck) then left + {k} else left
      else v.eps
    case DeleteRelease(x) => if x in s.deleters && Flag(v.leaving, x) then v.eps - {s.deleters[x].key} else v.eps
    case _ => v.eps
  }

  function Stepped(c: Cidr, v: Node, st: Step, stuck: bool): Node
    requires Enabled(c, v.sys, st)
  {
    var s := v.sys;
    Node(Next(c, s, st), EpsAfter(v, st, stuck),
         if st.RestartBegin? && s.restarters[st.thread].key in s.pods
         then v.was[st.thread := s.pods[s.restarters[st.thread].key].attached] else v.was,
         if st.DeleteBegin? && st.key in s.pods then v.leaving[s.nextThread := s.pods[st.key].attached] else v.leaving)
  }

  /* ---- who will take an endpoint down ---- */

  predicate PodClaims(s: Sys, k: Key) { k in s.pods && s.pods[k].attached }

  predicate CreateClaims(s: Sys, k: Key) {
    s.creator.Some? && s.creator.value.key == k && s.creator.value.pc.Launched? && s.creator.value.pc.attached
  }

  ghost predicate DeleteClaims(v: Node, k: Key) {
    exists x :: x in v.sys.deleters && v.sys.deleters[x].key == k && !v.sys.deleters[x].released && Flag(v.leaving, x)
  }

  predicate ThreadClaims(v: Node, x: nat, k: Key) {
    && x in v.sys.restarters && v.sys.restarters[x].key == k
    && match v.sys.restarters[x].pc
       case Working(_) => Flag(v.was, x)
       case Finishing(_, attached, _) => attached
       case _ => false
  }

  ghost predicate RestartClaims(v: Node, k: Key) { exists x :: ThreadClaims(v, x, k) }

  /** A tracked Pod marked attached, or a create, restart or delete in progress that has the endpoint in hand. */
  ghost predicate Claimed(v: Node, k: Key) {
    PodClaims(v.sys, k) || CreateClaims(v.sys, k) || DeleteClaims(v, k) || RestartClaims(v, k)
  }

  /** Every endpoint is. */
  ghost predicate Owned(v: Node) { forall k :: k in v.eps ==> Claimed(v, k) }

  ghost predicate OtherRestartClaims(v: Node, x: nat, k: Key) { exists y :: y != x && ThreadClaims(v, y, k) }

  /** Someone other than the Pod and the restart `x`. */
  ghost predicate OthersClaim(v: Node, x: nat, k: Key) {
    CreateClaims(v.sys, k) || DeleteClaims(v, k) || OtherRestartClaims(v, x, k)
  }

  /**
   * What strands an endpoint, before the step is taken: an attach whose load fails for a key that nobody else claims, or
   * a restart that ends without a Pod marked attached to hand its endpoint to.
   */
  ghost predicate Strands(v: Node, st: Step, stuck: bool) {
    var s := v.sys;
    match st
    case CreateLaunch(env) =>
      && s.creator.Some? && s.creator.value.pc.Allocated? && Attaches(s.creator.value.pc.ip, env)
      && !env.attachOk && stuck && !Claimed(v, s.creator.value.key)
    case RestartWork(x, w) =>
      && x in s.restarters && s.restarters[x].pc.Working? && Reattaches(s.restarters[x].pc.podIP, w)
      && !w.attachOk && stuck && !PodClaims(s, s.restarters[x].key) && !OthersClaim(v, x, s.restarters[x].key)
    case RestartEnd(x) =>
      && x in s.restarters && s.restarters[x].pc.Finishing? && s.restarters[x].key in v.eps
      && !HandedOver(s, s.restarters[x]) && !OthersClaim(v, x, s.restarters[x].key)
    case _ => false
  }

  predicate HandedOver(s: Sys, r: Restarter)
    requires r.pc.Finishing?
  {
    r.key in s.pods && if r.pc.newId.Some? then r.pc.attached else s.pods[r.key].attached
  }

  /* ---- what holds of every state ---- */

  /** Numbers handed out are old, and a create's key is untracked until it is stored. */
  ghost predicate Sound(s: Sys) {
    && H.NumbersKept(s, s) && (forall x :: x in s.deleters ==> x < s.nextThread)
    && (s.creator.Some? && !s.creator.value.pc.Unwinding? ==> s.creator.value.key !in s.pods)
  }

  lemma CreateSound(c: Cidr, s: Sys, st: Step)
    requires Sound(s) && Enabled(c, s, st) && IsCreate(st)
    ensures Sound(Next(c, s, st))
  {
    assert Next(c, s, st) == NextCreate(c, s, st);
    H.StepNumbers(c, s, st);
    if st.CreateCommit? {
      assert Next(c, s, st) == Committed(s, st.obs);
    } else if !st.CreateReject? {
      CreateEffect(c, s, st);
    }
  }

  lemma StepSound(c: Cidr, s: Sys, st: Step)
    requires Sound(s) && Enabled(c, s, st)
    ensures Sound(Next(c, s, st))
  {
    if IsCreate(st) {
      CreateSound(c, s, st);
    } else {
      H.StepNumbers(c, s, st);
      if IsDelete(st) {
        assert Next(c, s, st) == NextDelete(s, st);
      } else {
        PodEffect(c, s, st);
      }
    }
  }

  /* ---- steps that keep every claim ---- */

  /** Claims survive when Pods keep their flag and threads stay. */
  ghost predicate Same(s: Sys, t: Sys) {
    && (forall k :: PodClaims(s, k) ==> PodClaims(t, k)) && t.deleters == s.deleters
    && (forall k :: CreateClaims(s, k) ==> CreateClaims(t, k) || PodClaims(t, k))
    && forall x :: x in s.restarters ==> x in t.restarters && t.restarters[x] == s.restarters[x]
  }

  lemma SameClaim(v: Node, u: Node, k: Key)
    requires Same(v.sys, u.sys) && u.was == v.was && u.leaving == v.leaving && Claimed(v, k)
    ensures Claimed(u, k)
  {
    if DeleteClaims(v, k) {
      var x :| x in v.sys.deleters && v.sys.deleters[x].key == k && !v.sys.deleters[x].released && Flag(v.leaving, x);
      assert x in u.sys.deleters;
    }
    if RestartClaims(v, k) {
      var x :| ThreadClaims(v, x, k);
      assert ThreadClaims(u, x, k);
    }
  }

  lemma SameKeeps(v: Node, u: Node)
    requires Owned(v) && Same(v.sys, u.sys) && u.eps <= v.eps && u.was == v.was && u.leaving == v.leaving
    ensures Owned(u)
  {
    forall k | k in u.eps
      ensures Claimed(u, k)
    {
      SameClaim(v, u, k);
    }
  }

  lemma StoreSame(s: Sys, k: Key, r: (Pod, Option<Spawn>))
    requires Sound(s) && k in s.pods && r.0.attached == s.pods[k].attached
    ensures Same(s, StorePod(s, k, r))
  {
  }

  lemma ReconcileAttached(p: Pod, obs: seq<Obs>)
    requires p.terminal.None? ==> |p.containers| <= |obs|
    ensures Reconcile(p, obs).0.attached == p.attached
  {
  }

  lemma FailProbeAttached(p: Pod, name: string)
    ensures FailProbe(p, name).0.attached == p.attached
  {
  }

  lemma PodStepSame(c: Cidr, s: Sys, st: Step)
    requires Sound(s) && Enabled(c, s, st) && !IsCreate(st) && !IsDelete(st) && !IsRestart(st)
    ensures Same(s, Next(c, s, st))
  {
    if st.key in s.pods {
      var p := s.pods[st.key];
      match st
      case Observe(k, obs) =>
        ReconcileAttached(p, obs);
        StoreSame(s, k, Reconcile(p, obs));
      case ProbeFailed(k, name) =>
        FailProbeAttached(p, name);
        StoreSame(s, k, FailProbe(p, name));
      case _ => PodEffect(c, s, st);
    }
  }

  /* ---- creates ---- */

  lemma CommitSame(s: Sys, obs: seq<Obs>)
    requires Sound(s) && s.creator.Some? && s.creator.value.pc.Launched?
    requires s.creator.value.spec.containers != [] && |s.creator.value.spec.containers| <= |obs|
    ensures Same(s, Committed(s, obs))
  {
    var cr, t := s.creator.value, Committed(s, obs);
    var p := NewPod(s.nextInc, cr.spec, cr.pc.ip, cr.pc.id, cr.pc.vmIP, cr.pc.attached);
    ReconcileAttached(p, obs);
    assert t.pods == s.pods[cr.key := CommitPod(p, obs).0] && t.pods[cr.key].attached == cr.pc.attached;
  }

  lemma CreateSame(c: Cidr, s: Sys, st: Step)
    requires Sound(s) && Enabled(c, s, st) && IsCreate(st)
    ensures Same(s, Next(c, s, st))
  {
    assert Next(c, s, st) == NextCreate(c, s, st);
    if st.CreateCommit? {
      CommitSame(s, st.obs);
    } else if st.CreateReject? {
      assert Next(c, s, st) == RejectedPod(s);
    } else {
      CreateEffect(c, s, st);
    }
  }

  lemma LaunchAttaches(ip: IP, env: LaunchEnv)
    ensures var r := LaunchVM(ip, env).outcome; r.Up? && r.attached <==> Attaches(ip, env) && env.attachOk
  {
  }

  /** The launch moves the creator and nothing else that claims. */
  lemma LaunchClaims(c: Cidr, v: Node, env: LaunchEnv, stuck: bool, k: Key)
    requires Enabled(c, v.sys, CreateLaunch(env))
    ensures var u, cr := Stepped(c, v, CreateLaunch(env), stuck), v.sys.creator.value;
            Claimed(u, k) <==> Claimed(v, k) || (k == cr.key && Attaches(cr.pc.ip, env) && env.attachOk)
  {
    var u := Stepped(c, v, CreateLaunch(env), stuck);
    LaunchAttaches(v.sys.creator.value.pc.ip, env);
    assert u.sys == LaunchStep(v.sys, env);
    assert forall x :: ThreadClaims(u, x, k) <==> ThreadClaims(v, x, k);
  }

  lemma LaunchStrandsIff(c: Cidr, v: Node, env: LaunchEnv, stuck: bool)
    requires Owned(v) && Enabled(c, v.sys, CreateLaunch(env))
    ensures Owned(Stepped(c, v, CreateLaunch(env), stuck)) <==> !Strands(v, CreateLaunch(env), stuck)
  {
    var u, k := Stepped(c, v, CreateLaunch(env), stuck), v.sys.creator.value.key;
    forall j
      ensures Claimed(u, j) <==> Claimed(v, j) || (j == k && Attaches(v.sys.creator.value.pc.ip, env) && env.attachOk)
    {
      LaunchClaims(c, v, env, stuck, j);
    }
    if Strands(v, CreateLaunch(env), stuck) {
      assert k in u.eps;
    }
  }

  /* ---- restarts ---- */

  /** Claims after a step of the restart `x` that leaves creator, deleters and other restarts alone. */
  ghost predicate OnlyThread(v: Node, u: Node, x: nat) {
    && u.sys.creator == v.sys.creator && u.sys.deleters == v.sys.deleters && u.leaving == v.leaving
    && (forall y :: y != x ==> (y in u.sys.restarters <==> y in v.sys.restarters) && (Flag(u.was, y) <==> Flag(v.was, y)))
    && (forall y :: y != x && y in v.sys.restarters ==> u.sys.restarters[y] == v.sys.restarters[y])
  }

  lemma SplitClaims(v: Node, x: nat, k: Key)
    ensures Claimed(v, k) <==> PodClaims(v.sys, k) || OthersClaim(v, x, k) || ThreadClaims(v, x, k)
  {
  }

  lemma OthersKept(v: Node, u: Node, x: nat, k: Key)
    requires OnlyThread(v, u, x)
    ensures OthersClaim(u, x, k) <==> OthersClaim(v, x, k)
  {
    assert forall y :: y != x ==> (ThreadClaims(u, y, k) <==> ThreadClaims(v, y, k));
  }

  /** So the claim on a key changes with the Pod's flag and the restart's own claim only. */
  lemma ThreadStep(v: Node, u: Node, x: nat, k: Key)
    requires OnlyThread(v, u, x)
    ensures Claimed(u, k) <==> PodClaims(u.sys, k) || OthersClaim(v, x, k) || ThreadClaims(u, x, k)
    ensures Claimed(v, k) <==> PodClaims(v.sys, k) || OthersClaim(v, x, k) || ThreadClaims(v, x, k)
  {
    SplitClaims(v, x, k);
    SplitClaims(u, x, k);
    OthersKept(v, u, x, k);
  }

  lemma WorkThread(c: Cidr, v: Node, x: nat, w: WorkEnv, stuck: bool)
    requires Enabled(c, v.sys, RestartWork(x, w))
    ensures var u, r := Stepped(c, v, RestartWork(x, w), stuck), v.sys.restarters[x];
            && OnlyThread(v, u, x) && u.sys.pods == v.sys.pods
            && (forall k :: ThreadClaims(u, x, k) <==> k == r.key && Reattaches(r.pc.podIP, w) && w.attachOk)
  {
    assert Next(c, v.sys, RestartWork(x, w)) == NextRestart(v.sys, RestartWork(x, w));
  }

  lemma WorkStrandsIff(c: Cidr, v: Node, x: nat, w: WorkEnv, stuck: bool)
    requires Owned(v) && Enabled(c, v.sys, RestartWork(x, w))
    ensures Owned(Stepped(c, v, RestartWork(x, w), stuck)) <==> !Strands(v, RestartWork(x, w), stuck)
  {
    var u, k := Stepped(c, v, RestartWork(x, w), stuck), v.sys.restarters[x].key;
    WorkThread(c, v, x, w, stuck);
    ThreadStep(v, u, x, k);
    forall j | j in u.eps && j != k
      ensures Claimed(u, j)
    {
      ThreadStep(v, u, x, j);
    }
    if Strands(v, RestartWork(x, w), stuck) {
      assert k in u.eps;
    }
  }

  lemma FinishAttached(p: Pod, oldId: string, newId: Option<string>, attached: bool, vmIP: IP)
    ensures FinishPod(p, oldId, newId, attached, vmIP).attached == if newId.Some? then attached else p.attached
  {
  }

  lemma EndPods(s: Sys, x: nat)
    requires x in s.restarters && s.restarters[x].pc.Finishing?
    ensures var t, r := NextRestart(s, RestartEnd(x)), s.restarters[x];
            && (PodClaims(t, r.key) <==> HandedOver(s, r))
            && (forall k :: k != r.key ==> (PodClaims(t, k) <==> PodClaims(s, k)))
  {
    var r := s.restarters[x];
    if r.key in s.pods {
      FinishAttached(s.pods[r.key], r.oldId, r.pc.newId, r.pc.attached, r.pc.vmIP);
    }
  }

  lemma EndThread(c: Cidr, v: Node, x: nat, stuck: bool)
    requires Enabled(c, v.sys, RestartEnd(x))
    ensures var u, r := Stepped(c, v, RestartEnd(x), stuck), v.sys.restarters[x];
            && OnlyThread(v, u, x) && !ThreadClaims(u, x, r.key) && u.sys == NextRestart(v.sys, RestartEnd(x))
            && (forall k :: k != r.key ==> !ThreadClaims(v, x, k))
  {
    assert Next(c, v.sys, RestartEnd(x)) == NextRestart(v.sys, RestartEnd(x));
  }

  lemma EndStrandsIff(c: Cidr, v: Node, x: nat, stuck: bool)
    requires Owned(v) && Enabled(c, v.sys, RestartEnd(x))
    ensures Owned(Stepped(c, v, RestartEnd(x), stuck)) <==> !Strands(v, RestartEnd(x), stuck)
  {
    var u, k := Stepped(c, v, RestartEnd(x), stuck), v.sys.restarters[x].key;
    EndThread(c, v, x, stuck);
    EndPods(v.sys, x);
    ThreadStep(v, u, x, k);
    forall j | j in u.eps && j != k
      ensures Claimed(u, j)
    {
      ThreadStep(v, u, x, j);
    }
  }

  /** The other sections of a restart take no claim away. */
  lemma BeginThread(c: Cidr, v: Node, st: Step, stuck: bool)
    requires Enabled(c, v.sys, st) && (st.RestartBegin? || st.RestartReap?)
    ensures var u := Stepped(c, v, st, stuck);
            && OnlyThread(v, u, st.thread)
            && forall k :: (PodClaims(v.sys, k) ==> PodClaims(u.sys, k)) && !ThreadClaims(v, st.thread, k)
  {
    assert Next(c, v.sys, st) == NextRestart(v.sys, st);
  }

  lemma BeginOwned(c: Cidr, v: Node, st: Step, stuck: bool)
    requires Owned(v) && Enabled(c, v.sys, st) && (st.RestartBegin? || st.RestartReap?)
    ensures Owned(Stepped(c, v, st, stuck))
  {
    var u := Stepped(c, v, st, stuck);
    BeginThread(c, v, st, stuck);
    forall k | k in u.eps
      ensures Claimed(u, k)
    {
      ThreadStep(v, u, st.thread, k);
    }
  }

  /* ---- deletes ---- */

  /** A delete takes over the claim of its Pod. */
  lemma ForgetOwned(c: Cidr, v: Node, k: Key, stuck: bool)
    requires Owned(v) && Sound(v.sys)
    ensures Owned(Stepped(c, v, DeleteBegin(k), stuck))
  {
    var u, x := Stepped(c, v, DeleteBegin(k), stuck), v.sys.nextThread;
    assert u.sys == NextDelete(v.sys, DeleteBegin(k));
    forall j | j in u.eps
      ensures Claimed(u, j)
    {
      if j == k && PodClaims(v.sys, k) {
        assert x in u.sys.deleters && Flag(u.leaving, x);
      } else {
        ForgetElsewhere(v, u, k, j);
      }
    }
  }

  lemma ForgetElsewhere(v: Node, u: Node, k: Key, j: Key)
    requires Sound(v.sys) && u.sys == NextDelete(v.sys, DeleteBegin(k)) && u.was == v.was && Claimed(v, j)
    requires forall x: nat :: x < v.sys.nextThread ==> (Flag(u.leaving, x) <==> Flag(v.leaving, x))
    requires PodClaims(v.sys, j) ==> j != k
    ensures Claimed(u, j)
  {
    if DeleteClaims(v, j) {
      var x :| x in v.sys.deleters && v.sys.deleters[x].key == j && !v.sys.deleters[x].released && Flag(v.leaving, x);
      assert x in u.sys.deleters && u.sys.deleters[x] == v.sys.deleters[x];
    }
    if RestartClaims(v, j) {
      var x :| ThreadClaims(v, x, j);
      assert ThreadClaims(u, x, j);
    }
  }

  /** A delete that detaches gives up its claim with the endpoint. */
  lemma DetachOwned(c: Cidr, v: Node, st: Step, stuck: bool)
    requires Owned(v) && Enabled(c, v.sys, st) && (st.DeleteRelease? || st.DeleteEnd?)
    ensures Owned(Stepped(c, v, st, stuck))
  {
    var u := Stepped(c, v, st, stuck);
    assert u.sys == NextDelete(v.sys, st);
    forall j | j in u.eps
      ensures Claimed(u, j)
    {
      if RestartClaims(v, j) {
        var x :| ThreadClaims(v, x, j);
        assert ThreadClaims(u, x, j);
      } else if DeleteClaims(v, j) {
        var x :| x in v.sys.deleters && v.sys.deleters[x].key == j && !v.sys.deleters[x].released && Flag(v.leaving, x);
        assert x in u.sys.deleters && u.sys.deleters[x] == v.sys.deleters[x];
      }
    }
  }

  /* ---- every step, and every run ---- */

  /** From a state in which every endpoint is claimed, a step leaves one unclaimed if and only if it strands one. */
  lemma StepStrandsIff(c: Cidr, v: Node, st: Step, stuck: bool)
    requires Owned(v) && Sound(v.sys) && Enabled(c, v.sys, st)
    ensures Owned(Stepped(c, v, st, stuck)) <==> !Strands(v, st, stuck)
  {
    match st
    case CreateLaunch(env) => LaunchStrandsIff(c, v, env, stuck);
    case RestartWork(x, w) => WorkStrandsIff(c, v, x, w, stuck);
    case RestartEnd(x) => EndStrandsIff(c, v, x, stuck);
    case DeleteBegin(k) => ForgetOwned(c, v, k, stuck);
    case _ =>
      if IsDelete(st) {
        DetachOwned(c, v, st, stuck);
      } else if IsRestart(st) {
        BeginOwned(c, v, st, stuck);
      } else {
        CalmOwned(c, v, st, stuck);
      }
  }

  lemma CalmOwned(c: Cidr, v: Node, st: Step, stuck: bool)
    requires Owned(v) && Sound(v.sys) && Enabled(c, v.sys, st) && !IsDelete(st) && !IsRestart(st) && !st.CreateLaunch?
    ensures Owned(Stepped(c, v, st, stuck))
  {
    if IsCreate(st) {
      CreateSame(c, v.sys, st);
    } else {
      PodStepSame(c, v.sys, st);
    }
    SameKeeps(v, Stepped(c, v, st, stuck));
  }

  /** A step, and whether an attach that fails in it does so after the router recorded the endpoint. */
  datatype Act = Act(st: Step, stuck: bool)

  predicate LegalActs(c: Cidr, v: Node, acts: seq<Act>)
    decreases |acts|
  {
    acts == [] || (Enabled(c, v.sys, acts[0].st) && LegalActs(c, Stepped(c, v, acts[0].st, acts[0].stuck), acts[1..]))
  }

  ghost predicate AlwaysOwned(c: Cidr, v: Node, acts: seq<Act>)
    requires LegalActs(c, v, acts)
    decreases |acts|
  {
    Owned(v) && (acts != [] ==> AlwaysOwned(c, Stepped(c, v, acts[0].st, acts[0].stuck), acts[1..]))
  }

  ghost predicate NoneStrands(c: Cidr, v: Node, acts: seq<Act>)
    requires LegalActs(c, v, acts)
    decreases |acts|
  {
    acts != [] ==> !Strands(v, acts[0].st, acts[0].stuck) && NoneStrands(c, Stepped(c, v, acts[0].st, acts[0].stuck), acts[1..])
  }

  lemma {:induction false} OwnedIffFrom(c: Cidr, v: Node, acts: seq<Act>)
    requires Owned(v) && Sound(v.sys) && LegalActs(c, v, acts)
    ensures AlwaysOwned(c, v, acts) <==> NoneStrands(c, v, acts)
    decreases |acts|
  {
    if acts != [] {
      var u := Stepped(c, v, acts[0].st, acts[0].stuck);
      StepStrandsIff(c, v, acts[0].st, acts[0].stuck);
      StepSound(c, v.sys, acts[0].st);
      if Owned(u) {
        OwnedIffFrom(c, u, acts[1..]);
      }
    }
  }

  function Start(s: Sys): Node { Node(s, {}, map[], map[]) }

  /** In a run every endpoint belongs to a tracked Pod or to work in progress throughout if and only if no step strands one. */
  lemma EndpointsOwnedIff(c: Cidr, s: Sys, acts: seq<Act>)
    requires Init(c, s) && LegalActs(c, Start(s), acts)
    ensures AlwaysOwned(c, Start(s), acts) <==> NoneStrands(c, Start(s), acts)
  {
    OwnedIffFrom(c, Start(s), acts);
  }
}
