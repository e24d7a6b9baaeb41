/** The mesh object: bringing the interface up, and reconciling host routes with the peers' AllowedIPs. */
module Mesh {
  import opened Common
  import opened Net
  import opened Text
  import opened Numbers
  import opened Helper
  import opened WireGuard

  /* ---- commands ---- */

  function AddressIP(t: Parser, address: string): string
    requires t.cidr(address).Some?
  {
    t.show(t.cidr(address).value.0)
  }

  function RouteFamily(t: Parser, target: string): string {
    if t.cidr(target).None? || |t.cidr(target).value.0| == 4 then "-inet" else "-inet6"
  }

  function RouteRequest(t: Parser, iface: string, op: string, target: string): Request {
    Request("route", ["-q", "-n", op, RouteFamily(t, target), target, "-interface", iface], "")
  }

  /** The commands of Up before the routes. */
  function UpRequests(t: Parser, c: Interface): seq<Request>
    requires c.listenPort >= 0 && c.mtu >= 0 && t.cidr(c.address).Some?
  {
    AddressRequests(t, c) + MtuRequests(c) + [Request("ifconfig", [c.name, "up"], "")]
  }

  /** Create the interface, configure it and give it its address. */
  function AddressRequests(t: Parser, c: Interface): seq<Request>
    requires c.listenPort >= 0 && t.cidr(c.address).Some?
  {
    var ip := AddressIP(t, c.address);
    [Request("wireguard-go", [c.name], ""),
     Request("wg", ["setconf", c.name, "/dev/stdin"], ConfigText(c)),
     Request("ifconfig", [c.name, "inet", ip, ip, "alias"], "")]
  }

  function MtuRequests(c: Interface): seq<Request>
    requires c.mtu >= 0
  {
    if c.mtu > 0 then [Request("ifconfig", [c.name, "mtu", Itoa(c.mtu)], "")] else []
  }

  /** The commands of a teardown after the routes. */
  function DownRequests(c: Interface): seq<Request> {
    [Request("ifconfig", [c.name, "down"], ""),
     Request("pkill", ["-f", "wireguard-go " + c.name], ""),
     Request("ifconfig", [c.name, "destroy"], "")]
  }

  function SyncRequest(c: Interface): Request
    requires c.listenPort >= 0
  {
    Request("wg", ["syncconf", c.name, "/dev/stdin"], ConfigText(c))
  }

  /* ---- routes and the host table ---- */

  ghost predicate Parses(t: Parser, targets: set<string>) { forall s :: s in targets ==> t.cidr(s).Some? }

  function Block(t: Parser, s: string): Cidr
    requires t.cidr(s).Some?
  {
    t.cidr(s).value.1
  }

  function Blocks(t: Parser, targets: set<string>): set<Cidr>
    requires forall s :: s in targets ==> t.cidr(s).Some?
  {
    set s | s in targets :: Block(t, s)
  }

  /** Every tracked route is in the host's table, which knows routes by their masked block. */
  ghost predicate Tracked(t: Parser, routes: set<string>, host: set<Cidr>)
    requires Parses(t, routes)
  {
    forall s :: s in routes ==> Block(t, s) in host
  }

  /**
   * A reconcile towards `want` that has deleted `gone` and added `new_`: only stale routes go, only missing ones
   * come, and nothing is added before every stale route is gone.
   */
  ghost predicate Progress(t: Parser, r0: set<string>, h0: set<Cidr>, want: set<string>, gone: set<string>,
                           new_: set<string>, r1: set<string>, h1: set<Cidr>)
    requires Parses(t, r0) && Parses(t, want)
  {
    && gone <= r0 - want && new_ <= want - r0 && (new_ != {} ==> gone == r0 - want)
    && r1 == r0 - gone + new_ && h1 == h0 - Blocks(t, gone) + Blocks(t, new_)
  }

  /** No stale route shares its masked block with another tracked route. */
  ghost predicate NoClash(t: Parser, routes: set<string>, want: set<string>)
    requires Parses(t, routes)
  {
    forall s, k :: s in routes - want && k in routes && k != s ==> Block(t, s) != Block(t, k)
  }

  /** Without a clash, tracked routes stay in the host table wherever the reconcile stops. */
  lemma ProgressTracked(t: Parser, r0: set<string>, h0: set<Cidr>, want: set<string>, gone: set<string>,
                        new_: set<string>, r1: set<string>, h1: set<Cidr>)
    requires Parses(t, r0) && Parses(t, want) && Progress(t, r0, h0, want, gone, new_, r1, h1)
    requires Tracked(t, r0, h0) && NoClash(t, r0, want)
    ensures Parses(t, r1) && Tracked(t, r1, h1)
  {
    forall s | s in r1
      ensures Block(t, s) in h1
    {
      if s !in new_ {
        assert Block(t, s) !in Blocks(t, gone);
      }
    }
  }

  /** And the condition is exact: with a clash, some stopping point leaves a tracked route out of the table. */
  lemma ClashIff(t: Parser, r0: set<string>, h0: set<Cidr>, want: set<string>)
    requires Parses(t, r0) && Parses(t, want) && Tracked(t, r0, h0)
    ensures NoClash(t, r0, want) <==>
            forall gone :: gone <= r0 - want ==> Parses(t, r0 - gone) && Tracked(t, r0 - gone, h0 - Blocks(t, gone))
  {
    if NoClash(t, r0, want) {
      forall gone | gone <= r0 - want
        ensures Tracked(t, r0 - gone, h0 - Blocks(t, gone))
      {
        assert r0 - gone + {} == r0 - gone && Blocks(t, {}) == {};
        assert h0 - Blocks(t, gone) + {} == h0 - Blocks(t, gone);
        ProgressTracked(t, r0, h0, want, gone, {}, r0 - gone, h0 - Blocks(t, gone));
      }
    } else {
      var s, k :| s in r0 - want && k in r0 && k != s && Block(t, s) == Block(t, k);
      assert {s} <= r0 - want && k in r0 - {s};
      assert Block(t, s) in Blocks(t, {s});
      assert !Tracked(t, r0 - {s}, h0 - Blocks(t, {s}));
    }
  }

  /** A nil return: the tracked routes are the wanted ones. */
  ghost predicate Complete(r0: set<string>, want: set<string>, gone: set<string>, new_: set<string>) {
    gone == r0 - want && new_ == want - r0
  }

  lemma CompleteExact(t: Parser, r0: set<string>, h0: set<Cidr>, want: set<string>, gone: set<string>,
                      new_: set<string>, r1: set<string>, h1: set<Cidr>)
    requires Parses(t, r0) && Parses(t, want) && Progress(t, r0, h0, want, gone, new_, r1, h1)
    ensures Complete(r0, want, gone, new_) <==> r1 == want
  {
    if r1 == want {
      assert gone == r0 - want;
      assert new_ == want - r0;
    }
  }

  /** After a complete reconcile the table holds what it held, less the stale blocks, plus every wanted block. */
  lemma CompleteTable(t: Parser, r0: set<string>, h0: set<Cidr>, want: set<string>, gone: set<string>,
                      new_: set<string>, r1: set<string>, h1: set<Cidr>)
    requires Parses(t, r0) && Parses(t, want) && Progress(t, r0, h0, want, gone, new_, r1, h1)
    requires Complete(r0, want, gone, new_) && Tracked(t, r0, h0) && NoClash(t, r0, want)
    ensures h1 == h0 - Blocks(t, r0 - want) + Blocks(t, want)
  {
    forall b | b in Blocks(t, want)
      ensures b in h1
    {
      var s :| s in want && Block(t, s) == b;
      if s in r0 {
        assert b !in Blocks(t, gone);
      } else {
        assert b in Blocks(t, new_);
      }
    }
    forall b | b in Blocks(t, new_)
      ensures b in Blocks(t, want)
    {
      var s :| s in new_ && Block(t, s) == b;
    }
  }

  /** A complete reconcile loses a kept route exactly when a stale one had its block and no added one brings it back. */
  lemma CompleteTrackedIff(t: Parser, r0: set<string>, h0: set<Cidr>, want: set<string>, gone: set<string>,
                           new_: set<string>, r1: set<string>, h1: set<Cidr>)
    requires Parses(t, r0) && Parses(t, want) && Progress(t, r0, h0, want, gone, new_, r1, h1)
    requires Complete(r0, want, gone, new_) && Tracked(t, r0, h0)
    ensures Parses(t, r1) && (Tracked(t, r1, h1) <==>
                              Blocks(t, r0 * want) * Blocks(t, r0 - want) <= Blocks(t, want - r0))
  {
    assert r1 == want;
    forall s | s in want
      ensures Block(t, s) in h1 <==> s !in r0 || Block(t, s) !in Blocks(t, gone) || Block(t, s) in Blocks(t, new_)
    {
      if s !in r0 {
        assert Block(t, s) in Blocks(t, new_);
      }
    }
    if Tracked(t, r1, h1) {
      forall b | b in Blocks(t, r0 * want) * Blocks(t, r0 - want)
        ensures b in Blocks(t, want - r0)
      {
        var s :| s in r0 * want && Block(t, s) == b;
      }
    }
  }

  lemma BlocksSplit(t: Parser, a: set<string>, b: set<string>)
    requires Parses(t, a) && Parses(t, b)
    ensures Blocks(t, a + b) == Blocks(t, a) + Blocks(t, b)
  {
  }

  lemma BlocksWithin(t: Parser, a: set<string>, b: set<string>)
    requires Parses(t, b) && a <= b
    ensures Blocks(t, a) <= Blocks(t, b)
  {
  }

  /**
   * However far a failed reconcile got, running it again to the end gives the routes and the table that an
   * unbroken run would have given.
   */
  lemma RetryConverges(t: Parser, r0: set<string>, h0: set<Cidr>, want: set<string>, gone: set<string>, new_: set<string>,
                       r1: set<string>, h1: set<Cidr>, gone2: set<string>, new2: set<string>, r2: set<string>, h2: set<Cidr>)
    requires Parses(t, r0) && Parses(t, want) && Tracked(t, r0, h0) && NoClash(t, r0, want)
    requires Progress(t, r0, h0, want, gone, new_, r1, h1)
    requires Parses(t, r1) && Progress(t, r1, h1, want, gone2, new2, r2, h2) && Complete(r1, want, gone2, new2)
    ensures r2 == want && h2 == h0 - Blocks(t, r0 - want) + Blocks(t, want)
  {
    ProgressTracked(t, r0, h0, want, gone, new_, r1, h1);
    NoClashKept(t, r0, h0, want, gone, new_, r1, h1);
    CompleteTable(t, r1, h1, want, gone2, new2, r2, h2);
    assert gone + (r1 - want) == r0 - want;
    BlocksSplit(t, gone, r1 - want);
    BlocksWithin(t, new_, want);
  }

  /** A clash cannot arise on the way: the routes a reconcile adds meet no stale route any more. */
  lemma NoClashKept(t: Parser, r0: set<string>, h0: set<Cidr>, want: set<string>, gone: set<string>, new_: set<string>,
                    r1: set<string>, h1: set<Cidr>)
    requires Parses(t, r0) && Parses(t, want) && NoClash(t, r0, want) && Progress(t, r0, h0, want, gone, new_, r1, h1)
    ensures Parses(t, r1) && NoClash(t, r1, want)
  {
    if new_ != {} {
      assert r1 - want == {};
    }
  }

  /* ---- every run ---- */

  datatype Table = Table(routes: set<string>, host: set<Cidr>)

  /** What one call does to the table: a reconcile that may stop anywhere, or a teardown that forgets every route. */
  datatype Change = Reconcile(want: set<string>, gone: set<string>, new_: set<string>) | Teardown(host: set<Cidr>)

  ghost predicate Changes(t: Parser, a: Table, c: Change, b: Table) {
    match c
    case Reconcile(want, gone, new_) =>
      && Parses(t, a.routes) && Parses(t, want)
      && Progress(t, a.routes, a.host, want, gone, new_, b.routes, b.host)
    case Teardown(host) => b == Table({}, host)
  }

  /** Over any sequence of calls without a clash, every tracked route is in the host's table after each of them. */
  lemma {:induction false} AlwaysTracked(t: Parser, states: seq<Table>, changes: seq<Change>)
    requires |states| == |changes| + 1 && states[0].routes == {}
    requires forall i :: 0 <= i < |changes| ==> Changes(t, states[i], changes[i], states[i + 1])
    requires forall i :: 0 <= i < |changes| && changes[i].Reconcile? ==>
               Parses(t, states[i].routes) && NoClash(t, states[i].routes, changes[i].want)
    ensures forall i :: 0 <= i < |states| ==> Parses(t, states[i].routes) && Tracked(t, states[i].routes, states[i].host)
  {
    for i := 0 to |changes|
      invariant forall j :: 0 <= j <= i ==> Parses(t, states[j].routes) && Tracked(t, states[j].routes, states[j].host)
    {
      var a, c, b := states[i], changes[i], states[i + 1];
      assert Changes(t, a, c, b);
      if c.Reconcile? {
        ProgressTracked(t, a.routes, a.host, c.want, c.gone, c.new_, b.routes, b.host);
      }
    }
  }

  /* ---- the object ---- */

  datatype Cmd = Del(target: string) | Add(target: string)

  function CmdRequest(t: Parser, iface: string, c: Cmd): Request {
    RouteRequest(t, iface, if c.Del? then "delete" else "add", c.target)
  }

  /** Deletions first. */
  ghost predicate Ordered(cmds: seq<Cmd>, n: nat) {
    n <= |cmds| && (forall i :: 0 <= i < n ==> cmds[i].Del?) && (forall i :: n <= i < |cmds| ==> cmds[i].Add?)
  }

  /** Only stale routes are deleted and only missing ones added. */
  ghost predicate Needed(cmds: seq<Cmd>, routes: set<string>, want: set<string>) {
    forall c :: c in cmds ==> c.target in (if c.Del? then routes - want else want - routes)
  }

  lemma DeleteOne(t: Parser, r0: set<string>, h0: set<Cidr>, want: set<string>, gone: set<string>, target: string)
    requires Parses(t, r0) && Parses(t, want) && gone <= r0 - want && target in r0 - want
    ensures Progress(t, r0, h0, want, gone + {target}, {}, r0 - gone - {target}, h0 - Blocks(t, gone) - {Block(t, target)})
  {
    assert Blocks(t, gone + {target}) == Blocks(t, gone) + {Block(t, target)};
    assert Blocks(t, {}) == {};
    assert r0 - gone - {target} == r0 - (gone + {target}) + {};
  }

  /** The commands run up to the first that fails. */
  function Ran(requests: seq<Request>, fails: Request -> bool): (ran: seq<Request>)
    ensures ran <= requests && (requests != [] ==> ran != [])
    ensures (forall i :: 0 <= i < |ran| - 1 ==> !fails(ran[i])) && (ran != requests ==> fails(ran[|ran| - 1]))
  {
    if requests == [] || fails(requests[0]) then requests[..if requests == [] then 0 else 1]
    else [requests[0]] + Ran(requests[1..], fails)
  }

  lemma TargetsParse(t: Parser, hostPort: string -> bool, c: Interface)
    requires IfaceValid(t, hostPort, c)
    ensures Parses(t, TargetSet(c.peers))
  {
  }

  /** Only commands that did not fail took effect. */
  ghost predicate Effective(t: Parser, iface: string, gone: set<string>, new_: set<string>, fails: Request -> bool) {
    forall s :: (s in gone ==> !fails(CmdRequest(t, iface, Del(s)))) && (s in new_ ==> !fails(CmdRequest(t, iface, Add(s))))
  }

  ghost predicate AllRan(log: seq<Request>, fails: Request -> bool) { forall i :: 0 <= i < |log| ==> !fails(log[i]) }

  ghost predicate AllRouted(t: Parser, iface: string, cmds: seq<Cmd>, fails: Request -> bool) {
    forall i :: 0 <= i < |cmds| ==> !fails(CmdRequest(t, iface, cmds[i]))
  }

  class Network {
    const parser: Parser
    const hostPort: string -> bool
    var cfg: Interface
    var routes: set<string>
    var up: bool
    var host: set<Cidr>

    constructor (parser: Parser, hostPort: string -> bool, cfg: Interface, host: set<Cidr>)
      ensures this.parser == parser && this.hostPort == hostPort && this.cfg == cfg
      ensures routes == {} && !up && this.host == host
    {
      this.parser, this.hostPort, this.cfg, this.host := parser, hostPort, cfg, host;
      routes, up := {}, false;
    }

    /** The first loop of `reconcileRoutesLocked`; `fails` are the commands whose error is not a benign one. */
    method DeleteStale(want: set<string>, fails: Cmd -> bool)
      returns (ok: bool, cmds: seq<Cmd>, ghost gone: set<string>)
      requires Parses(parser, routes) && Parses(parser, want)
      modifies this`routes, this`host
      ensures Progress(parser, old(routes), old(host), want, gone, {}, routes, host)
      ensures ok <==> gone == old(routes) - want
      ensures forall s :: s in gone ==> !fails(Del(s))
      ensures ok <==> forall c :: c in cmds ==> !fails(c)
      ensures Ordered(cmds, |cmds|) && Needed(cmds, old(routes), want)
    {
      ghost var r0, h0 := routes, host;
      assert Blocks(parser, {}) == {};
      cmds, gone := [], {};
      var left := routes - want;
      while left != {}
        invariant left <= r0 - want && gone == r0 - want - left && forall s :: s in gone ==> !fails(Del(s))
        invariant Progress(parser, r0, h0, want, gone, {}, routes, host)
        invariant Ordered(cmds, |cmds|) && Needed(cmds, r0, want) && forall c :: c in cmds ==> !fails(c)
        decreases left
      {
        var target :| target in left;
        cmds := cmds + [Del(target)];
        if fails(Del(target)) {
          assert target !in gone && Del(target) in cmds;
          return false, cmds, gone;
        }
        DeleteOne(parser, r0, h0, want, gone, target);
        assert r0 - gone + {} == r0 - gone && h0 - Blocks(parser, gone) + {} == h0 - Blocks(parser, gone);
        routes, host := routes - {target}, host - {Block(parser, target)};
        gone, left := gone + {target}, left - {target};
      }
      ok := true;
    }

    /** The second loop. */
    method AddMissing(desired: seq<string>, ghost want: set<string>, fails: Cmd -> bool)
      returns (ok: bool, cmds: seq<Cmd>, ghost new_: set<string>)
      requires want == (set s | s in desired) && Parses(parser, want) && routes <= want
      modifies this`routes, this`host
      ensures new_ <= want - old(routes) && routes == old(routes) + new_ && host == old(host) + Blocks(parser, new_)
      ensures ok <==> new_ == want - old(routes)
      ensures forall s :: s in new_ ==> !fails(Add(s))
      ensures ok <==> forall c :: c in cmds ==> !fails(c)
      ensures Ordered(cmds, 0) && Needed(cmds, old(routes), want)
    {
      ghost var r0, h0 := routes, host;
      cmds, new_ := [], {};
      assert Blocks(parser, {}) == {};
      for i := 0 to |desired|
        invariant new_ == (set s | s in desired[..i]) - r0 && new_ <= want && forall s :: s in new_ ==> !fails(Add(s))
        invariant routes == r0 + new_ && host == h0 + Blocks(parser, new_)
        invariant Ordered(cmds, 0) && Needed(cmds, r0, want) && forall c :: c in cmds ==> !fails(c)
      {
        var target := desired[i];
        assert target in want && desired[..i + 1] == desired[..i] + [target];
        if target in routes {
          continue;
        }
        cmds := cmds + [Add(target)];
        if fails(Add(target)) {
          assert Add(target) in cmds && target in want - r0 && target !in new_;
          return false, cmds, new_;
        }
        AddBlock(parser, h0, new_, target);
        routes, host, new_ := routes + {target}, host + {Block(parser, target)}, new_ + {target};
      }
      assert desired[..|desired|] == desired;
      ok := true;
    }

    /** `reconcileRoutesLocked`. */
    method ReconcileRoutes(desired: seq<string>, ghost want: set<string>, fails: Cmd -> bool)
      returns (ok: bool, cmds: seq<Cmd>, ghost n: nat, ghost gone: set<string>, ghost new_: set<string>)
      requires want == (set s | s in desired) && Parses(parser, routes) && Parses(parser, want)
      modifies this`routes, this`host
      ensures Progress(parser, old(routes), old(host), want, gone, new_, routes, host)
      ensures ok <==> routes == want
      ensures forall s :: (s in gone ==> !fails(Del(s))) && (s in new_ ==> !fails(Add(s)))
      ensures ok <==> forall c :: c in cmds ==> !fails(c)
      ensures Ordered(cmds, n) && Needed(cmds, old(routes), want)
    {
      ghost var r0, h0 := routes, host;
      var dels, adds;
      ok, dels, gone := DeleteStale((set s | s in desired), fails);
      cmds, n, new_ := dels, |dels|, {};
      if ok {
        assert routes == r0 - gone && routes <= want;
        ok, adds, new_ := AddMissing(desired, want, fails);
        cmds := dels + adds;
        assert host == h0 - Blocks(parser, gone) + Blocks(parser, new_);
      }
      CompleteExact(parser, r0, h0, want, gone, new_, routes, host);
    }

    /** The reconcile at the end of Up and Sync, towards the configured targets. */
    method InstallRoutes(fails: Request -> bool)
      returns (ok: bool, cmds: seq<Cmd>, ghost n: nat, ghost gone: set<string>, ghost new_: set<string>)
      requires Parses(parser, routes) && Parses(parser, TargetSet(cfg.peers))
      modifies this`routes, this`host
      ensures Progress(parser, old(routes), old(host), TargetSet(cfg.peers), gone, new_, routes, host)
      ensures (ok <==> routes == TargetSet(cfg.peers)) && (ok <==> AllRouted(parser, cfg.name, cmds, fails))
      ensures Needed(cmds, old(routes), TargetSet(cfg.peers)) && Ordered(cmds, n) && Effective(parser, cfg.name, gone, new_, fails)
    {
      var desired := RouteTargets(cfg.peers);
      var name, p := cfg.name, parser;
      var failed := c => fails(CmdRequest(p, name, c));
      ok, cmds, n, gone, new_ := ReconcileRoutes(desired, TargetSet(cfg.peers), failed);
      assert AllRouted(parser, cfg.name, cmds, fails) <==> forall i :: 0 <= i < |cmds| ==> !failed(cmds[i]);
    }

    /** Up to the routes, a call that fails leaves the object as it was. */
    method Up(fails: Request -> bool) returns (ok: bool, log: seq<Request>, cmds: seq<Cmd>, ghost n: nat, ghost gone: set<string>, ghost new_: set<string>)
      requires Parses(parser, routes)
      modifies this`routes, this`host, this`up
      ensures !IfaceValid(parser, hostPort, cfg) ==> !ok && log == [] && cmds == []
      ensures IfaceValid(parser, hostPort, cfg) ==>
                && log <= UpRequests(parser, cfg)
                && Parses(parser, TargetSet(cfg.peers)) && Needed(cmds, old(routes), TargetSet(cfg.peers)) && Ordered(cmds, n)
                && Progress(parser, old(routes), old(host), TargetSet(cfg.peers), gone, new_, routes, host)
                && (ok <==> AllRan(log, fails) && AllRouted(parser, cfg.name, cmds, fails))
      ensures ok ==> up && log == UpRequests(parser, cfg) && routes == TargetSet(cfg.peers)
      ensures Effective(parser, cfg.name, gone, new_, fails)
      ensures cmds == [] && !ok ==> unchanged(this) || (up && routes == old(routes) && host == old(host))
    {
      log, cmds, n, gone, new_ := [], [], 0, {}, {};
      var valid := WireGuard.Validate(parser, hostPort, cfg);
      if !valid {
        return false, log, cmds, n, gone, new_;
      }
      TargetsParse(parser, hostPort, cfg);
      assert Blocks(parser, {}) == {};
      var requests := UpRequests(parser, cfg);
      log := Ran(requests, fails);
      if fails(log[|log| - 1]) {
        return false, log, cmds, n, gone, new_;
      }
      up := true;
      ok, cmds, n, gone, new_ := InstallRoutes(fails);
    }

    /** `Sync`: an invalid peer set, a mesh that is down or a refused config changes nothing. */
    method Sync(peers: seq<Peer>, fails: Request -> bool)
      returns (ok: bool, cmds: seq<Cmd>, ghost n: nat, ghost gone: set<string>, ghost new_: set<string>)
      requires Parses(parser, routes)
      modifies this`routes, this`host, this`cfg
      ensures var next := old(cfg).(peers := peers);
              if !IfaceValid(parser, hostPort, next) || !up || fails(SyncRequest(next))
              then !ok && cmds == [] && unchanged(this)
              else
                && cfg == next && (ok <==> routes == TargetSet(peers)) && (ok <==> AllRouted(parser, cfg.name, cmds, fails))
                && Parses(parser, TargetSet(peers)) && Needed(cmds, old(routes), TargetSet(peers)) && Ordered(cmds, n)
                && Progress(parser, old(routes), old(host), TargetSet(peers), gone, new_, routes, host)
                && Effective(parser, cfg.name, gone, new_, fails)
    {
      cmds, n, gone, new_ := [], 0, {}, {};
      var next := cfg.(peers := peers);
      var valid := WireGuard.Validate(parser, hostPort, next);
      if !valid || !up || fails(SyncRequest(next)) {
        return false, cmds, n, gone, new_;
      }
      cfg := next;
      TargetsParse(parser, hostPort, next);
      ok, cmds, n, gone, new_ := InstallRoutes(fails);
    }

    /** `teardownLocked`: every tracked route is forgotten, and the ones whose delete did not fail are gone from the host. */
    method Down(fails: Request -> bool)
      requires Parses(parser, routes)
      modifies this`routes, this`host, this`up
      ensures routes == {} && !up
      ensures host == old(host) - Blocks(parser, Deleted(parser, cfg.name, old(routes), fails))
    {
      var left := routes;
      ghost var done := {};
      while left != {}
        invariant routes == old(routes) && left <= routes && done == routes - left
        invariant host == old(host) - Blocks(parser, Deleted(parser, cfg.name, done, fails))
        decreases left
      {
        var target :| target in left;
        DeletedOne(parser, cfg.name, done, target, fails);
        if !fails(CmdRequest(parser, cfg.name, Del(target))) {
          host := host - {Block(parser, target)};
        }
        done, left := done + {target}, left - {target};
      }
      assert done == routes;
      routes, up := {}, false;
    }

    /** `Remove`: like Down, but for the configured targets too. */
    method Remove(fails: Request -> bool)
      requires Parses(parser, routes) && Parses(parser, TargetSet(cfg.peers))
      modifies this`routes, this`host, this`up
      ensures routes == {} && !up
      ensures host == old(host) - Blocks(parser, Deleted(parser, cfg.name, old(routes) + TargetSet(cfg.peers), fails))
    {
      var desired := RouteTargets(cfg.peers);
      routes := routes + set s | s in desired;
      Down(fails);
    }
  }

  /** The targets whose delete did not fail. */
  function Deleted(t: Parser, iface: string, targets: set<string>, fails: Request -> bool): set<string> {
    set s | s in targets && !fails(CmdRequest(t, iface, Del(s)))
  }

  lemma DeletedOne(t: Parser, iface: string, done: set<string>, target: string, fails: Request -> bool)
    requires Parses(t, done) && t.cidr(target).Some?
    ensures var was := Deleted(t, iface, done, fails);
            Blocks(t, Deleted(t, iface, done + {target}, fails)) ==
            Blocks(t, was) + if fails(CmdRequest(t, iface, Del(target))) then {} else {Block(t, target)}
  {
    var was := Deleted(t, iface, done, fails);
    assert Deleted(t, iface, done + {target}, fails) == was + if fails(CmdRequest(t, iface, Del(target))) then {} else {target};
    assert Blocks(t, was + {target}) == Blocks(t, was) + {Block(t, target)};
    assert was + {} == was;
  }

  lemma AddBlock(t: Parser, h0: set<Cidr>, new_: set<string>, target: string)
    requires Parses(t, new_) && t.cidr(target).Some?
    ensures h0 + Blocks(t, new_) + {Block(t, target)} == h0 + Blocks(t, new_ + {target})
  {
  }

  /* ---- two spellings of one block ---- */

  /** A peer that drops one of two spellings of a block leaves the other tracked, and neither in the host's table. */
  lemma SpellingLost(t: Parser, h0: set<Cidr>, a: string, b: string, r1: set<string>, h1: set<Cidr>, r2: set<string>, h2: set<Cidr>)
    requires t.cidr(a).Some? && t.cidr(b).Some? && a != b && Block(t, a) == Block(t, b)
    requires Progress(t, {}, h0, {a, b}, {}, {a, b}, r1, h1) && Progress(t, {a, b}, h1, {b}, {a}, {}, r2, h2)
    ensures r2 == {b} && Parses(t, r2) && !Tracked(t, r2, h2)
  {
    assert Blocks(t, {a}) == {Block(t, a)} && Blocks(t, {}) == {};
    assert b in r2;
  }

  /** Up and then Sync get there, with every command succeeding. */
  method UpThenSync(t: Parser, hostPort: string -> bool, cfg: Interface, next: seq<Peer>, host: set<Cidr>, a: string, b: string)
    returns (n: Network)
    requires t.cidr(a).Some? && t.cidr(b).Some? && a != b && Block(t, a) == Block(t, b)
    requires IfaceValid(t, hostPort, cfg) && TargetSet(cfg.peers) == {a, b}
    requires IfaceValid(t, hostPort, cfg.(peers := next)) && TargetSet(next) == {b}
    ensures n.parser == t && n.routes == {b} && Parses(t, n.routes) && !Tracked(t, n.routes, n.host)
  {
    n := new Network(t, hostPort, cfg, host);
    var ok, log, cmds;
    ghost var k, gone, new_;
    var fine := (r: Request) => false;
    ok, log, cmds, k, gone, new_ := n.Up(fine);
    CompleteExact(t, {}, host, {a, b}, gone, new_, n.routes, n.host);
    assert gone == {} && new_ == {a, b};
    ghost var r1, h1 := n.routes, n.host;
    ok, cmds, k, gone, new_ := n.Sync(next, fine);
    CompleteExact(t, r1, h1, {b}, gone, new_, n.routes, n.host);
    assert gone == {a} && new_ == {};
    SpellingLost(t, host, a, b, r1, h1, n.routes, n.host);
  }
}
