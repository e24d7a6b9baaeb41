/**
 * Over every run: which micro-VM a goroutine that destroys one may be looking at. Restarts, deletes and failed probes all
 * destroy VMs by name, outside the lock, while the key may get a new Pod.
 */
module VmHarm {
  import opened Common
  import opened Net
  import opened Status
  import opened Provider
  import opened Lifecycle

  /* ---- the provider with the VMs its goroutines are about to destroy ---- */

  /** A goroutine launched for the Pod `inc` of a key that will destroy the VMs `ids`. */
  datatype Doom = Doom(key: Key, inc: nat, ids: set<string>)

  /** `teardowns` are the deleters at their teardown, `killers` the probers that failed a Never Pod. */
  datatype World = World(sys: Sys, teardowns: map<nat, Doom>, killers: map<nat, Doom>, nextKiller: nat)

  datatype Act = Do(st: Step) | Killed(killer: nat)

  function Ids(ws: seq<Workload>): set<string> { set w | w in ws :: w.id }

  function IdOf(ws: seq<Workload>, container: string): string {
    var found := FindWorkload(ws, container);
    if found.Some? then found.value else ""
  }

  /** `failProbe` under Never: it unlocks, and only then stops and destroys the VM. */
  predicate Kills(s: Sys, st: Step) {
    st.ProbeFailed? && st.key in s.pods && s.pods[st.key].terminal.None? && !ShouldRestart(s.pods[st.key].policy, 1)
  }

  predicate CanAct(c: Cidr, v: World, a: Act) {
    match a
    case Do(st) => Enabled(c, v.sys, st)
    case Killed(x) => x in v.killers
  }

  function TeardownsAfter(v: World, st: Step): map<nat, Doom> {
    match st
    case DeleteBegin(k) =>
      if k in v.sys.pods
      then v.teardowns[v.sys.nextThread := Doom(k, v.sys.pods[k].inc, Ids(v.sys.pods[k].workloads))]
      else v.teardowns
    case DeleteEnd(x) => v.teardowns - {x}
    case _ => v.teardowns
  }

  function Acted(c: Cidr, v: World, a: Act): World
    requires CanAct(c, v, a)
  {
    match a
    case Killed(x) => v.(killers := v.killers - {x})
    case Do(st) =>
      var u := Next(c, v.sys, st);
      if Kills(v.sys, st) then
        var p := v.sys.pods[st.key];
        World(u, v.teardowns, v.killers[v.nextKiller := Doom(st.key, p.inc, {IdOf(p.workloads, st.container)})], v.nextKiller + 1)
      else World(u, TeardownsAfter(v, st), v.killers, v.nextKiller)
  }

  /* ---- harm ---- */

  /** Some tracked Pod other than `inc` runs on the VM `id`. */
  ghost predicate Used(s: Sys, inc: nat, id: string) {
    exists k, w :: k in s.pods && s.pods[k].inc != inc && w in s.pods[k].workloads && w.id == id
  }

  /** What a restart past its first section still destroys: the old VM, or an orphaned new one. */
  function RestarterDoom(r: Restarter): set<string> {
    match r.pc
    case Working(_) => {r.oldId}
    case Reaping(id) => {id}
    case _ => {}
  }

  ghost predicate RestartDooms(restarters: map<nat, Restarter>, inc: nat, id: string) {
    exists x :: x in restarters && restarters[x].inc == inc && id in RestarterDoom(restarters[x])
  }

  ghost predicate ThreadDooms(threads: map<nat, Doom>, inc: nat, id: string) {
    exists x :: x in threads && threads[x].inc == inc && id in threads[x].ids
  }

  /** A goroutine is about to destroy the VM `id` for the Pod `inc`. */
  ghost predicate Dooms(v: World, inc: nat, id: string) {
    RestartDooms(v.sys.restarters, inc, id) || ThreadDooms(v.teardowns, inc, id) || ThreadDooms(v.killers, inc, id)
  }

  /** A goroutine is about to destroy the VM of a Pod it was not launched for. */
  ghost predicate Harmed(v: World) {
    exists inc, id :: Dooms(v, inc, id) && Used(v.sys, inc, id)
  }

  /** Pods and the goroutines launched for them carry numbers already handed out, and so do threads. */
  ghost predicate Numbered(v: World) {
    && (forall k :: k in v.sys.pods ==> v.sys.pods[k].inc < v.sys.nextInc)
    && (forall x :: x in v.sys.restarters ==> v.sys.restarters[x].inc < v.sys.nextInc && x < v.sys.nextThread)
    && (forall x :: x in v.teardowns ==> v.teardowns[x].inc < v.sys.nextInc && x < v.sys.nextThread)
    && (forall x :: x in v.killers ==> v.killers[x].inc < v.sys.nextInc && x < v.nextKiller)
  }

  /* ---- the steps that bring harm about ---- */

  ghost predicate DoomedName(v: World, id: string) { exists inc :: Dooms(v, inc, id) }

  /**
   * What makes a step harmful, before it is taken: storing a Pod on a VM that is doomed already, or dooming a VM that
   * another Pod runs on. A restart dooms its old VM when it begins, and hands its new one to the Pod it finds or dooms it.
   */
  ghost predicate Endangers(v: World, a: Act) {
    match a
    case Do(CreateCommit(_)) => v.sys.creator.Some? && v.sys.creator.value.pc.Launched? && DoomedName(v, v.sys.creator.value.pc.id)
    case Do(RestartBegin(x)) =>
      x in v.sys.restarters && !GivesUp(v.sys.pods, v.sys.restarters[x].key)
      && Used(v.sys, v.sys.restarters[x].inc, v.sys.restarters[x].oldId)
    case Do(RestartEnd(x)) => x in v.sys.restarters && EndEndangers(v, v.sys.restarters[x])
    case Do(DeleteBegin(k)) =>
      k in v.sys.pods && AnyUsed(v.sys, v.sys.pods[k].inc, Ids(v.sys.pods[k].workloads))
    case Do(ProbeFailed(k, name)) =>
      Kills(v.sys, ProbeFailed(k, name)) && Used(v.sys, v.sys.pods[k].inc, IdOf(v.sys.pods[k].workloads, name))
    case _ => false
  }

  ghost predicate EndEndangers(v: World, r: Restarter) {
    r.pc.Finishing? && r.pc.newId.Some? &&
    if r.key in v.sys.pods
    then r.oldId in Ids(v.sys.pods[r.key].workloads) && OtherDooms(v, v.sys.pods[r.key].inc, r.pc.newId.value)
    else Used(v.sys, r.inc, r.pc.newId.value)
  }

  lemma DoomsBounded(v: World, inc: nat, id: string)
    requires Numbered(v) && Dooms(v, inc, id)
    ensures inc < v.sys.nextInc
  {
  }

  /** No Pod runs on another VM than before. */
  ghost predicate SameUse(s: Sys, t: Sys) {
    forall k :: k in t.pods && t.pods[k].workloads != [] ==>
      k in s.pods && t.pods[k].inc == s.pods[k].inc && t.pods[k].workloads == s.pods[k].workloads
  }

  lemma UseBack(s: Sys, t: Sys, inc: nat, id: string)
    requires SameUse(s, t) && Used(t, inc, id)
    ensures Used(s, inc, id)
  {
    var k, w :| k in t.pods && t.pods[k].inc != inc && w in t.pods[k].workloads && w.id == id;
    assert w in s.pods[k].workloads;
  }

  /** Restarts that destroy after a step did so before. */
  ghost predicate NoNewRestarts(a: map<nat, Restarter>, b: map<nat, Restarter>) {
    forall x :: x in b ==> RestarterDoom(b[x]) == {} || (x in a && b[x] == a[x])
  }

  ghost predicate NoNewThreads(a: map<nat, Doom>, b: map<nat, Doom>) {
    forall x :: x in b ==> x in a && b[x] == a[x]
  }

  lemma DoomBack(v: World, u: World, inc: nat, id: string)
    requires NoNewRestarts(v.sys.restarters, u.sys.restarters)
    requires NoNewThreads(v.teardowns, u.teardowns) && NoNewThreads(v.killers, u.killers) && Dooms(u, inc, id)
    ensures Dooms(v, inc, id)
  {
  }

  /** A step that dooms nothing and moves no Pod to another VM harms no one. */
  lemma NothingNew(v: World, u: World)
    requires !Harmed(v) && SameUse(v.sys, u.sys) && NoNewRestarts(v.sys.restarters, u.sys.restarters)
    requires NoNewThreads(v.teardowns, u.teardowns) && NoNewThreads(v.killers, u.killers)
    ensures !Harmed(u)
  {
    if Harmed(u) {
      var inc, id :| Dooms(u, inc, id) && Used(u.sys, inc, id);
      DoomBack(v, u, inc, id);
      UseBack(v.sys, u.sys, inc, id);
    }
  }

  /* ---- storing a Pod ---- */

  lemma CommitDooms(c: Cidr, v: World, obs: seq<Obs>, inc: nat, id: string)
    requires Numbered(v) && CanAct(c, v, Do(CreateCommit(obs)))
    ensures Dooms(Acted(c, v, Do(CreateCommit(obs))), inc, id) <==> Dooms(v, inc, id)
  {
    var u := Acted(c, v, Do(CreateCommit(obs)));
    assert u.sys == Committed(v.sys, obs);
    forall x | x in v.sys.restarters
      ensures x in u.sys.restarters && u.sys.restarters[x] == v.sys.restarters[x]
    {
    }
    assert NoNewRestarts(v.sys.restarters, u.sys.restarters);
  }

  lemma CommitUses(s: Sys, obs: seq<Obs>, inc: nat, id: string)
    requires s.creator.Some? && s.creator.value.pc.Launched? && inc < s.nextInc
    requires s.creator.value.spec.containers != [] && |s.creator.value.spec.containers| <= |obs|
    ensures Used(Committed(s, obs), inc, id) ==> Used(s, inc, id) || id == s.creator.value.pc.id
    ensures id == s.creator.value.pc.id ==> Used(Committed(s, obs), inc, id)
  {
    var cr, t := s.creator.value, Committed(s, obs);
    var q := CommitPod(NewPod(s.nextInc, cr.spec, cr.pc.ip, cr.pc.id, cr.pc.vmIP, cr.pc.attached), obs).0;
    var w := Workload(cr.spec.containers[0], cr.pc.id);
    assert t.pods == s.pods[cr.key := q] && q.inc == s.nextInc && q.workloads == [w];
    if id == cr.pc.id {
      assert w in t.pods[cr.key].workloads;
    }
  }

  /** Storing a Pod puts its VM in harm's way if and only if some goroutine is still to destroy one of that name. */
  lemma CommitHarmsIff(c: Cidr, v: World, obs: seq<Obs>)
    requires Numbered(v) && CanAct(c, v, Do(CreateCommit(obs))) && !Harmed(v)
    ensures Harmed(Acted(c, v, Do(CreateCommit(obs)))) <==> DoomedName(v, v.sys.creator.value.pc.id)
  {
    var u, id := Acted(c, v, Do(CreateCommit(obs))), v.sys.creator.value.pc.id;
    assert u.sys == Committed(v.sys, obs);
    if DoomedName(v, id) {
      var inc :| Dooms(v, inc, id);
      DoomsBounded(v, inc, id);
      CommitDooms(c, v, obs, inc, id);
      CommitUses(v.sys, obs, inc, id);
      assert Dooms(u, inc, id) && Used(u.sys, inc, id);
    }
    if Harmed(u) {
      var inc, i :| Dooms(u, inc, i) && Used(u.sys, inc, i);
      CommitDooms(c, v, obs, inc, i);
      DoomsBounded(v, inc, i);
      CommitUses(v.sys, obs, inc, i);
    }
  }

  /* ---- dooming a VM ---- */

  /** What is doomed in `u` is what was doomed in `v`, and `ids` for the Pod `inc`. */
  ghost predicate Adds(v: World, u: World, inc: nat, ids: set<string>) {
    forall i, id :: Dooms(u, i, id) <==> Dooms(v, i, id) || (i == inc && id in ids)
  }

  ghost predicate AnyUsed(s: Sys, inc: nat, ids: set<string>) { exists id :: id in ids && Used(s, inc, id) }

  /** Dooming VMs harms exactly if another Pod runs on one of them. */
  lemma NewDoomHarmsIff(v: World, u: World, inc: nat, ids: set<string>)
    requires !Harmed(v) && Adds(v, u, inc, ids) && SameUse(v.sys, u.sys)
    ensures Harmed(u) <==> AnyUsed(u.sys, inc, ids)
  {
    if AnyUsed(u.sys, inc, ids) {
      var id :| id in ids && Used(u.sys, inc, id);
      assert Dooms(u, inc, id);
    }
    if Harmed(u) {
      var i, id :| Dooms(u, i, id) && Used(u.sys, i, id);
      UseBack(v.sys, u.sys, i, id);
    }
  }

  /** The Pods other than `inc` run on the VMs they ran on. */
  lemma AnyUsedKept(s: Sys, t: Sys, inc: nat, ids: set<string>)
    requires SameUse(s, t)
    requires forall k :: k in s.pods && s.pods[k].inc != inc ==>
               k in t.pods && t.pods[k].inc == s.pods[k].inc && t.pods[k].workloads == s.pods[k].workloads
    ensures AnyUsed(t, inc, ids) <==> AnyUsed(s, inc, ids)
  {
    if AnyUsed(t, inc, ids) {
      var id :| id in ids && Used(t, inc, id);
      UseBack(s, t, inc, id);
    }
    if AnyUsed(s, inc, ids) {
      var id :| id in ids && Used(s, inc, id);
      var k, w :| k in s.pods && s.pods[k].inc != inc && w in s.pods[k].workloads && w.id == id;
      assert w in t.pods[k].workloads;
    }
  }

  lemma SameAnyUsed(s: Sys, t: Sys, inc: nat, ids: set<string>)
    requires SameUse(s, t) && SameUse(t, s)
    ensures AnyUsed(t, inc, ids) <==> AnyUsed(s, inc, ids)
  {
    if AnyUsed(t, inc, ids) {
      var id :| id in ids && Used(t, inc, id);
      UseBack(s, t, inc, id);
    }
    if AnyUsed(s, inc, ids) {
      var id :| id in ids && Used(s, inc, id);
      UseBack(t, s, inc, id);
    }
  }

  lemma RestartAdds(a: map<nat, Restarter>, b: map<nat, Restarter>, x: nat, r: Restarter, inc: nat, id: string)
    requires x in a && RestarterDoom(a[x]) == {} && b == a[x := r]
    ensures RestartDooms(b, inc, id) <==> RestartDooms(a, inc, id) || (inc == r.inc && id in RestarterDoom(r))
  {
    if RestartDooms(a, inc, id) {
      var y :| y in a && a[y].inc == inc && id in RestarterDoom(a[y]);
      assert y in b && b[y] == a[y];
    }
    if inc == r.inc && id in RestarterDoom(r) {
      assert b[x] == r;
    }
  }

  lemma ThreadAdds(a: map<nat, Doom>, x: nat, d: Doom, inc: nat, id: string)
    requires x !in a
    ensures ThreadDooms(a[x := d], inc, id) <==> ThreadDooms(a, inc, id) || (inc == d.inc && id in d.ids)
  {
    var b := a[x := d];
    if ThreadDooms(a, inc, id) {
      var y :| y in a && a[y].inc == inc && id in a[y].ids;
      assert y in b && b[y] == a[y];
    }
    if inc == d.inc && id in d.ids {
      assert b[x] == d;
    }
  }

  lemma BeginDooms(v: World, u: World, x: nat, r: Restarter)
    requires !Harmed(v) && SameUse(v.sys, u.sys) && SameUse(u.sys, v.sys) && u.teardowns == v.teardowns && u.killers == v.killers
    requires x in v.sys.restarters && RestarterDoom(v.sys.restarters[x]) == {}
    requires u.sys.restarters == v.sys.restarters[x := r] && RestarterDoom(r) == {r.oldId}
    ensures Harmed(u) <==> Used(v.sys, r.inc, r.oldId)
  {
    var ids := {r.oldId};
    forall i, id
      ensures Dooms(u, i, id) <==> Dooms(v, i, id) || (i == r.inc && id in ids)
    {
      RestartAdds(v.sys.restarters, u.sys.restarters, x, r, i, id);
    }
    NewDoomHarmsIff(v, u, r.inc, ids);
    SameAnyUsed(v.sys, u.sys, r.inc, ids);
    assert AnyUsed(v.sys, r.inc, ids) <==> Used(v.sys, r.inc, r.oldId);
  }

  /** A restart that begins dooms its old VM by name, so it harms exactly a Pod of another incarnation on that name. */
  lemma BeginHarmsIff(c: Cidr, v: World, x: nat)
    requires CanAct(c, v, Do(RestartBegin(x))) && !Harmed(v)
    ensures Harmed(Acted(c, v, Do(RestartBegin(x)))) <==> Endangers(v, Do(RestartBegin(x)))
  {
    var u, r := Acted(c, v, Do(RestartBegin(x))), v.sys.restarters[x];
    assert u.sys == NextRestart(v.sys, RestartBegin(x));
    if GivesUp(v.sys.pods, r.key) {
      NothingNew(v, u);
    } else {
      BeginDooms(v, u, x, u.sys.restarters[x]);
    }
  }

  /** A delete dooms the VMs its Pod ran on. */
  lemma DeleteHarmsIff(c: Cidr, v: World, k: Key)
    requires Numbered(v) && !Harmed(v)
    ensures Harmed(Acted(c, v, Do(DeleteBegin(k)))) <==> Endangers(v, Do(DeleteBegin(k)))
  {
    var u := Acted(c, v, Do(DeleteBegin(k)));
    assert u.sys == NextDelete(v.sys, DeleteBegin(k));
    if k in v.sys.pods {
      var p, x := v.sys.pods[k], v.sys.nextThread;
      var ids := Ids(p.workloads);
      forall i, id
        ensures Dooms(u, i, id) <==> Dooms(v, i, id) || (i == p.inc && id in ids)
      {
        ThreadAdds(v.teardowns, x, Doom(k, p.inc, ids), i, id);
      }
      NewDoomHarmsIff(v, u, p.inc, ids);
      AnyUsedKept(v.sys, u.sys, p.inc, ids);
    } else {
      NothingNew(v, u);
    }
  }

  lemma FailProbeUse(p: Pod, name: string)
    ensures FailProbe(p, name).0.inc == p.inc
    ensures FailProbe(p, name).0.workloads == p.workloads
    ensures FailProbe(p, name).1.Some? ==> ShouldRestart(p.policy, 1)
  {
  }

  /** Storing a Pod on the VMs it ran on; its restart, if any, waits out a backoff before it destroys anything. */
  lemma StoreUse(s: Sys, k: Key, r: (Pod, Option<Spawn>))
    requires k in s.pods && r.0.inc == s.pods[k].inc && r.0.workloads == s.pods[k].workloads
    ensures var t := StorePod(s, k, r);
            && SameUse(s, t) && SameUse(t, s) && NoNewRestarts(s.restarters, t.restarters)
            && (r.1.None? ==> t.restarters == s.restarters)
  {
  }

  lemma ProbeFailedUse(c: Cidr, s: Sys, k: Key, name: string)
    ensures var t := Next(c, s, ProbeFailed(k, name));
            SameUse(s, t) && SameUse(t, s) && NoNewRestarts(s.restarters, t.restarters)
    ensures Kills(s, ProbeFailed(k, name)) ==> Next(c, s, ProbeFailed(k, name)).restarters == s.restarters
  {
    if k in s.pods {
      FailProbeUse(s.pods[k], name);
      StoreUse(s, k, FailProbe(s.pods[k], name));
    }
  }

  lemma ProbeHarmsIff(c: Cidr, v: World, k: Key, name: string)
    requires Numbered(v) && !Harmed(v)
    ensures Harmed(Acted(c, v, Do(ProbeFailed(k, name)))) <==> Endangers(v, Do(ProbeFailed(k, name)))
  {
    var st := ProbeFailed(k, name);
    var u := Acted(c, v, Do(st));
    ProbeFailedUse(c, v.sys, k, name);
    if Kills(v.sys, st) {
      var p := v.sys.pods[k];
      var ids := {IdOf(p.workloads, name)};
      forall i, id
        ensures Dooms(u, i, id) <==> Dooms(v, i, id) || (i == p.inc && id in ids)
      {
        ThreadAdds(v.killers, v.nextKiller, Doom(k, p.inc, ids), i, id);
      }
      NewDoomHarmsIff(v, u, p.inc, ids);
      SameAnyUsed(v.sys, u.sys, p.inc, ids);
      assert AnyUsed(v.sys, p.inc, ids) <==> Used(v.sys, p.inc, IdOf(p.workloads, name));
    } else {
      NothingNew(v, u);
    }
  }

  /* ---- the end of a restart ---- */

  lemma EndGoneHarmsIff(c: Cidr, v: World, x: nat)
    requires CanAct(c, v, Do(RestartEnd(x))) && !Harmed(v) && v.sys.restarters[x].key !in v.sys.pods
    ensures Harmed(Acted(c, v, Do(RestartEnd(x)))) <==> Endangers(v, Do(RestartEnd(x)))
  {
    var u, r := Acted(c, v, Do(RestartEnd(x))), v.sys.restarters[x];
    assert u.sys == NextRestart(v.sys, RestartEnd(x));
    if r.pc.newId.None? {
      NothingNew(v, u);
    } else {
      var ids := {r.pc.newId.value};
      forall i, id
        ensures Dooms(u, i, id) <==> Dooms(v, i, id) || (i == r.inc && id in ids)
      {
        RestartAdds(v.sys.restarters, u.sys.restarters, x, u.sys.restarters[x], i, id);
      }
      NewDoomHarmsIff(v, u, r.inc, ids);
      SameAnyUsed(v.sys, u.sys, r.inc, ids);
      assert AnyUsed(v.sys, r.inc, ids) <==> Used(v.sys, r.inc, r.pc.newId.value);
    }
  }

  /** A restart that is not destroying anything leaves. */
  lemma RestartLeaves(a: map<nat, Restarter>, x: nat, inc: nat, id: string)
    requires x in a && RestarterDoom(a[x]) == {}
    ensures RestartDooms(a - {x}, inc, id) <==> RestartDooms(a, inc, id)
  {
    var b := a - {x};
    if RestartDooms(a, inc, id) {
      var y :| y in a && a[y].inc == inc && id in RestarterDoom(a[y]);
      assert y in b && b[y] == a[y];
    }
  }

  /** After the swap the Pod runs on the new VM if it ran on the old one, and otherwise where it did. */
  lemma SwapUses(ws: seq<Workload>, oldId: string, newId: string, id: string)
    ensures id in Ids(SwapIds(ws, oldId, newId)) <==> (id in Ids(ws) && id != oldId) || (id == newId && oldId in Ids(ws))
  {
    var us := SwapIds(ws, oldId, newId);
    if id in Ids(us) {
      var w :| w in us && w.id == id;
      var i :| 0 <= i < |us| && us[i] == w;
      assert ws[i] in ws;
    }
    if id in Ids(ws) && id != oldId {
      var w :| w in ws && w.id == id;
      var i :| 0 <= i < |ws| && ws[i] == w;
      assert us[i] in us;
    }
    if id == newId && oldId in Ids(ws) {
      var w :| w in ws && w.id == oldId;
      var i :| 0 <= i < |ws| && ws[i] == w;
      assert us[i] in us;
    }
  }

  lemma FinishUse(p: Pod, oldId: string, newId: Option<string>, attached: bool, vmIP: IP)
    ensures var q := FinishPod(p, oldId, newId, attached, vmIP);
            q.inc == p.inc && q.workloads == if newId.None? then p.workloads else SwapIds(p.workloads, oldId, newId.value)
  {
  }

  /** Only the Pod under the key changes its VM, from the old name to the new one. */
  lemma EndUses(s: Sys, t: Sys, k: Key, oldId: string, newId: string, inc: nat, id: string)
    requires k in s.pods && k in t.pods && t.pods == s.pods[k := t.pods[k]] && t.pods[k].inc == s.pods[k].inc
    requires t.pods[k].workloads == SwapIds(s.pods[k].workloads, oldId, newId)
    ensures Used(t, inc, id) ==> Used(s, inc, id) || (id == newId && oldId in Ids(s.pods[k].workloads) && inc != s.pods[k].inc)
    ensures id == newId && oldId in Ids(s.pods[k].workloads) && inc != s.pods[k].inc ==> Used(t, inc, id)
  {
    SwapUses(s.pods[k].workloads, oldId, newId, id);
    if Used(t, inc, id) {
      var j, w :| j in t.pods && t.pods[j].inc != inc && w in t.pods[j].workloads && w.id == id;
      if j == k {
        assert id in Ids(t.pods[k].workloads);
        if id in Ids(s.pods[k].workloads) {
          var w' :| w' in s.pods[k].workloads && w'.id == id;
        }
      }
    }
    if id == newId && oldId in Ids(s.pods[k].workloads) && inc != s.pods[k].inc {
      assert id in Ids(t.pods[k].workloads);
      var w :| w in t.pods[k].workloads && w.id == id;
    }
  }

  ghost predicate OtherDooms(v: World, inc: nat, id: string) { exists i :: i != inc && Dooms(v, i, id) }

  lemma EndFoundHarmsIff(c: Cidr, v: World, x: nat)
    requires CanAct(c, v, Do(RestartEnd(x))) && !Harmed(v) && v.sys.restarters[x].key in v.sys.pods
    ensures Harmed(Acted(c, v, Do(RestartEnd(x)))) <==> Endangers(v, Do(RestartEnd(x)))
  {
    var u, r := Acted(c, v, Do(RestartEnd(x))), v.sys.restarters[x];
    var p := v.sys.pods[r.key];
    assert u.sys == NextRestart(v.sys, RestartEnd(x));
    FinishUse(p, r.oldId, r.pc.newId, r.pc.attached, r.pc.vmIP);
    if r.pc.newId.None? {
      NothingNew(v, u);
    } else {
      forall i, id
        ensures Dooms(u, i, id) <==> Dooms(v, i, id)
      {
        RestartLeaves(v.sys.restarters, x, i, id);
      }
      SwapHarmsIff(v, u, r.key, r.oldId, r.pc.newId.value);
    }
  }

  /** Moving a Pod to another VM harms it exactly if that VM is doomed for another Pod. */
  lemma SwapHarmsIff(v: World, u: World, k: Key, oldId: string, newId: string)
    requires !Harmed(v) && forall i, id :: Dooms(u, i, id) <==> Dooms(v, i, id)
    requires k in v.sys.pods && k in u.sys.pods && u.sys.pods == v.sys.pods[k := u.sys.pods[k]]
    requires u.sys.pods[k].inc == v.sys.pods[k].inc && u.sys.pods[k].workloads == SwapIds(v.sys.pods[k].workloads, oldId, newId)
    ensures Harmed(u) <==> oldId in Ids(v.sys.pods[k].workloads) && OtherDooms(v, v.sys.pods[k].inc, newId)
  {
    var inc0 := v.sys.pods[k].inc;
    if oldId in Ids(v.sys.pods[k].workloads) && OtherDooms(v, inc0, newId) {
      var i :| i != inc0 && Dooms(v, i, newId);
      EndUses(v.sys, u.sys, k, oldId, newId, i, newId);
      assert Dooms(u, i, newId) && Used(u.sys, i, newId);
    }
    if Harmed(u) {
      var i, id :| Dooms(u, i, id) && Used(u.sys, i, id);
      EndUses(v.sys, u.sys, k, oldId, newId, i, id);
    }
  }

  /* ---- every step ---- */

  /** A step of CreatePod that stores no launched Pod leaves Pods and goroutines as they are. */
  lemma CreateUse(c: Cidr, s: Sys, st: Step)
    requires Enabled(c, s, st) && IsCreate(st) && !st.CreateCommit?
    ensures SameUse(s, Next(c, s, st)) && Next(c, s, st).restarters == s.restarters
  {
    assert Next(c, s, st) == NextCreate(c, s, st);
    if st.CreateReject? {
      assert Next(c, s, st) == RejectedPod(s);
    } else {
      CreateEffect(c, s, st);
    }
  }

  lemma ReconcileUse(p: Pod, obs: seq<Obs>)
    requires p.terminal.None? ==> |p.containers| <= |obs|
    ensures Reconcile(p, obs).0.inc == p.inc && Reconcile(p, obs).0.workloads == p.workloads
  {
  }

  lemma ObserveUse(c: Cidr, s: Sys, k: Key, obs: seq<Obs>)
    requires Enabled(c, s, Observe(k, obs))
    ensures SameUse(s, Next(c, s, Observe(k, obs)))
    ensures NoNewRestarts(s.restarters, Next(c, s, Observe(k, obs)).restarters)
  {
    if k in s.pods {
      ReconcileUse(s.pods[k], obs);
      StoreUse(s, k, Reconcile(s.pods[k], obs));
    }
  }

  predicate Brings(st: Step) {
    st.CreateCommit? || st.RestartBegin? || st.RestartEnd? || st.DeleteBegin? || st.ProbeFailed?
  }

  lemma OtherUse(c: Cidr, s: Sys, st: Step)
    requires Enabled(c, s, st) && !Brings(st)
    ensures SameUse(s, Next(c, s, st)) && NoNewRestarts(s.restarters, Next(c, s, st).restarters)
  {
    if IsCreate(st) {
      CreateUse(c, s, st);
    } else if st.Observe? {
      ObserveUse(c, s, st.key, st.obs);
    } else if IsDelete(st) {
      assert Next(c, s, st) == NextDelete(s, st);
    } else if IsRestart(st) {
      assert Next(c, s, st) == NextRestart(s, st);
    } else {
      PodEffect(c, s, st);
    }
  }

  /** From a state without harm, a step brings harm about if and only if it endangers a VM. */
  lemma StepHarmsIff(c: Cidr, v: World, a: Act)
    requires Numbered(v) && CanAct(c, v, a) && !Harmed(v)
    ensures Harmed(Acted(c, v, a)) <==> Endangers(v, a)
  {
    match a
    case Killed(x) => NothingNew(v, Acted(c, v, a));
    case Do(CreateCommit(obs)) => CommitHarmsIff(c, v, obs);
    case Do(RestartBegin(x)) => BeginHarmsIff(c, v, x);
    case Do(RestartEnd(x)) =>
      if v.sys.restarters[x].key in v.sys.pods {
        EndFoundHarmsIff(c, v, x);
      } else {
        EndGoneHarmsIff(c, v, x);
      }
    case Do(DeleteBegin(k)) => DeleteHarmsIff(c, v, k);
    case Do(ProbeFailed(k, name)) => ProbeHarmsIff(c, v, k, name);
    case Do(st) =>
      OtherUse(c, v.sys, st);
      NothingNew(v, Acted(c, v, a));
  }

  /** A step numbers the Pods and goroutines it makes. */
  ghost predicate NumbersKept(s: Sys, t: Sys) {
    && s.nextInc <= t.nextInc && s.nextThread <= t.nextThread
    && (forall k :: k in t.pods ==> t.pods[k].inc < t.nextInc)
    && (forall x :: x in t.restarters ==> t.restarters[x].inc < t.nextInc && x < t.nextThread)
  }

  lemma StoreNumbers(s: Sys, k: Key, r: (Pod, Option<Spawn>))
    requires NumbersKept(s, s) && r.0.inc < s.nextInc
    ensures NumbersKept(s, StorePod(s, k, r))
  {
  }

  lemma CommitNumbers(s: Sys, obs: seq<Obs>)
    requires NumbersKept(s, s) && s.creator.Some? && s.creator.value.pc.Launched?
    requires s.creator.value.spec.containers != [] && |s.creator.value.spec.containers| <= |obs|
    ensures NumbersKept(s, Committed(s, obs))
  {
    var cr := s.creator.value;
    var p := NewPod(s.nextInc, cr.spec, cr.pc.ip, cr.pc.id, cr.pc.vmIP, cr.pc.attached);
    assert CommitPod(p, obs).0.inc == s.nextInc;
    StoreNumbers(s.(creator := None, nextInc := s.nextInc + 1), cr.key, CommitPod(p, obs));
  }

  lemma CreateNumbers(c: Cidr, s: Sys, st: Step)
    requires NumbersKept(s, s) && Enabled(c, s, st) && IsCreate(st)
    ensures NumbersKept(s, Next(c, s, st))
  {
    assert Next(c, s, st) == NextCreate(c, s, st);
    if st.CreateCommit? {
      CommitNumbers(s, st.obs);
    } else if st.CreateReject? {
      assert Next(c, s, st) == RejectedPod(s);
    } else {
      CreateEffect(c, s, st);
    }
  }

  lemma StepNumbers(c: Cidr, s: Sys, st: Step)
    requires NumbersKept(s, s) && Enabled(c, s, st)
    ensures NumbersKept(s, Next(c, s, st))
  {
    if IsCreate(st) {
      CreateNumbers(c, s, st);
    } else if IsDelete(st) {
      assert Next(c, s, st) == NextDelete(s, st);
    } else if IsRestart(st) {
      RestartNumbers(c, s, st);
    } else {
      PodNumbers(c, s, st);
    }
  }

  lemma RestartNumbers(c: Cidr, s: Sys, st: Step)
    requires NumbersKept(s, s) && Enabled(c, s, st) && IsRestart(st)
    ensures NumbersKept(s, Next(c, s, st))
  {
    assert Next(c, s, st) == NextRestart(s, st);
    var r := s.restarters[st.thread];
    if st.RestartEnd? && r.key in s.pods {
      FinishUse(s.pods[r.key], r.oldId, r.pc.newId, r.pc.attached, r.pc.vmIP);
    }
  }

  lemma PodNumbers(c: Cidr, s: Sys, st: Step)
    requires NumbersKept(s, s) && Enabled(c, s, st) && !IsCreate(st) && !IsDelete(st) && !IsRestart(st)
    ensures NumbersKept(s, Next(c, s, st))
  {
    if st.key in s.pods {
      var p := s.pods[st.key];
      match st
      case Observe(k, obs) =>
        ReconcileUse(p, obs);
        StoreNumbers(s, k, Reconcile(p, obs));
      case ProbeFailed(k, name) =>
        FailProbeUse(p, name);
        StoreNumbers(s, k, FailProbe(p, name));
      case _ => PodEffect(c, s, st);
    }
  }

  lemma ActNumbered(c: Cidr, v: World, a: Act)
    requires Numbered(v) && CanAct(c, v, a)
    ensures Numbered(Acted(c, v, a))
  {
    if a.Do? {
      StepNumbers(c, v.sys, a.st);
      TeardownNumbers(v, a.st, Next(c, v.sys, a.st));
    }
  }

  lemma TeardownNumbers(v: World, st: Step, t: Sys)
    requires Numbered(v) && NumbersKept(v.sys, t) && (st.DeleteBegin? && st.key in v.sys.pods ==> v.sys.nextThread < t.nextThread)
    ensures forall x :: x in TeardownsAfter(v, st) ==> TeardownsAfter(v, st)[x].inc < t.nextInc && x < t.nextThread
  {
  }

  /* ---- runs ---- */

  predicate LegalActs(c: Cidr, v: World, acts: seq<Act>)
    decreases |acts|
  {
    acts == [] || (CanAct(c, v, acts[0]) && LegalActs(c, Acted(c, v, acts[0]), acts[1..]))
  }

  function ActedAll(c: Cidr, v: World, acts: seq<Act>): World
    requires LegalActs(c, v, acts)
    decreases |acts|
  {
    if acts == [] then v else ActedAll(c, Acted(c, v, acts[0]), acts[1..])
  }

  /** No state along the run has a goroutine about to destroy another Pod's VM. */
  ghost predicate Unharmed(c: Cidr, v: World, acts: seq<Act>)
    requires LegalActs(c, v, acts)
    decreases |acts|
  {
    !Harmed(v) && (acts != [] ==> Unharmed(c, Acted(c, v, acts[0]), acts[1..]))
  }

  ghost predicate NoneEndangers(c: Cidr, v: World, acts: seq<Act>)
    requires LegalActs(c, v, acts)
    decreases |acts|
  {
    acts != [] ==> !Endangers(v, acts[0]) && NoneEndangers(c, Acted(c, v, acts[0]), acts[1..])
  }

  lemma {:induction false} UnharmedIffFrom(c: Cidr, v: World, acts: seq<Act>)
    requires Numbered(v) && !Harmed(v) && LegalActs(c, v, acts)
    ensures Unharmed(c, v, acts) <==> NoneEndangers(c, v, acts)
    decreases |acts|
  {
    if acts != [] {
      var u := Acted(c, v, acts[0]);
      StepHarmsIff(c, v, acts[0]);
      ActNumbered(c, v, acts[0]);
      if !Harmed(u) {
        UnharmedIffFrom(c, u, acts[1..]);
      }
    }
  }

  function Start(s: Sys): World { World(s, map[], map[], 0) }

  /** A run of the provider never gets to destroy the VM of a Pod other than its own if and only if no step endangers one. */
  lemma UnharmedIff(c: Cidr, s: Sys, acts: seq<Act>)
    requires Init(c, s) && LegalActs(c, Start(s), acts)
    ensures Unharmed(c, Start(s), acts) <==> NoneEndangers(c, Start(s), acts)
  {
    UnharmedIffFrom(c, Start(s), acts);
  }
}
