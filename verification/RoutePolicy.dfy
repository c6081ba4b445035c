/**
  What a finished setup has installed, and where packets go afterwards.  The
  rules are written out here, independently of the batch that adds them.
 */
module RoutePolicy {
  import opened Options
  import opened LinuxRoutes

  // ------------------------------------------------------------------ the machine after a whole setup

  /** Rules that let the core and its servers bypass the tunnel by address. */
  function BypassRules(plan: Plan, env: Env): set<Rule> {
    (set i | 0 <= i < |plan.serverIPs| :: Rule(V4, To(plan.serverIPs[i]), MainTable, 5)) +
    (if env.sourceIP == "" then {} else {Rule(V4, From(env.sourceIP), MainTable, 8)})
  }

  function PolicyRules(plan: Plan): set<Rule> {
    {Rule(V4, FwMark(plan.tun.socksMark), MainTable, 10), Rule(V4, Everything, Table(plan.tun.routeTable), 20)}
  }

  /** A firewall rule goes to the front of a chain that does not hold it. */
  function InFront(r: FwRule, chain: seq<FwRule>): seq<FwRule> { if r in chain then chain else [r] + chain }

  predicate HasV4Default(s: System, table: nat) { exists r :: r in s.routes && r.family == V4 && r.table == table }

  /** The machine after a setup whose lines all took effect, component by component. */
  function AfterSetup(plan: Plan, env: Env, home: System): System {
    var dns, dev := plan.systemDNS, plan.tun.interfaceName;
    System(
      home.rules + BypassRules(plan, env) + PolicyRules(plan),
      if HasV4Default(home, plan.tun.routeTable) then home.routes
      else home.routes + {DefaultRoute(V4, dev, plan.tun.routeTable)},
      if plan.tun.blockQUIC && env.hasIptables then InFront(DropQuic, home.output4) else home.output4,
      home.output6,
      if dns == "127.0.0.1" then InFront(RedirectDns(Tcp, 1053), InFront(RedirectDns(Udp, 1053), home.natOutput4))
      else home.natOutput4,
      if dns != "" && env.hasResolvectl then home.links[dev := LinkDns(dns, true)] else home.links,
      if dns != "" && !env.hasResolvectl then Some("nameserver " + dns + "\n") else home.resolvConf,
      if dns != "" && !env.hasResolvectl && home.resolvConf.Some? then home.resolvConf else home.backup)
  }

  ghost function RulesAdded(cmds: seq<Cmd>): set<Rule> {
    set i | 0 <= i < |cmds| && cmds[i].AddRule? :: cmds[i].rule
  }

  lemma {:induction false} RunRuleAdditions(cmds: seq<Cmd>, s: System)
    requires forall i :: 0 <= i < |cmds| ==> cmds[i].AddRule?
    ensures RunAll(cmds, s) == s.(rules := s.rules + RulesAdded(cmds))
  {
    if cmds == [] {
      assert s.rules + RulesAdded(cmds) == s.rules;
    } else {
      RunRuleAdditions(cmds[1..], Effect(cmds[0], s));
      RulesAddedFirst(cmds);
      assert s.rules + {cmds[0].rule} + RulesAdded(cmds[1..]) == s.rules + RulesAdded(cmds);
    }
  }

  lemma RulesAddedFirst(cmds: seq<Cmd>)
    requires cmds != [] && cmds[0].AddRule?
    ensures RulesAdded(cmds) == {cmds[0].rule} + RulesAdded(cmds[1..])
  {
    forall r | r in RulesAdded(cmds) ensures r in {cmds[0].rule} + RulesAdded(cmds[1..]) {
      var i :| 0 <= i < |cmds| && cmds[i].AddRule? && cmds[i].rule == r;
      if i != 0 { assert cmds[1..][i - 1].rule == r; }
    }
    forall r | r in RulesAdded(cmds[1..]) ensures r in RulesAdded(cmds) {
      var i :| 0 <= i < |cmds| - 1 && cmds[1..][i].AddRule? && cmds[1..][i].rule == r;
      assert cmds[i + 1].rule == r;
    }
  }

  lemma AddressSetup(plan: Plan, env: Env, s: System)
    ensures RunAll(AddressLines(plan, env), s) == s.(rules := s.rules + BypassRules(plan, env))
  {
    var a := AddressLines(plan, env);
    RunRuleAdditions(a, s);
    forall r | r in BypassRules(plan, env) ensures r in RulesAdded(a) {
      if i :| 0 <= i < |plan.serverIPs| && r == Rule(V4, To(plan.serverIPs[i]), MainTable, 5) {
        assert a[i].rule == r;
      } else {
        assert a[|plan.serverIPs|].rule == r;
      }
    }
    forall r | r in RulesAdded(a) ensures r in BypassRules(plan, env) {
      var i :| 0 <= i < |a| && a[i].AddRule? && a[i].rule == r;
      if i < |plan.serverIPs| { assert r == Rule(V4, To(plan.serverIPs[i]), MainTable, 5); }
    }
    assert RulesAdded(a) == BypassRules(plan, env);
  }

  lemma FirewallSetup(plan: Plan, env: Env, s: System)
    ensures RunAll(FirewallLines(plan, env), s) == s.(
      output4 := if plan.tun.blockQUIC && env.hasIptables then InFront(DropQuic, s.output4) else s.output4,
      natOutput4 := if plan.systemDNS == "127.0.0.1"
        then InFront(RedirectDns(Tcp, 1053), InFront(RedirectDns(Udp, 1053), s.natOutput4))
        else s.natOutput4)
  {
    var q := if plan.tun.blockQUIC && env.hasIptables then [EnsureFw(Output4, DropQuic)] else [];
    var n := if plan.systemDNS != LOOPBACK then []
      else [EnsureFw(NatOutput4, RedirectDns(Udp, DNS_PROXY_PORT)),
        EnsureFw(NatOutput4, RedirectDns(Tcp, DNS_PROXY_PORT))];
    assert FirewallLines(plan, env) == q + n;
    RunAllConcat(q, n, s);
    if q != [] { RunOne(q[0], s); }
    if n != [] { RunTwo(n[0], n[1], RunAll(q, s)); }
  }

  lemma RunOne(c: Cmd, s: System)
    ensures RunAll([c], s) == Effect(c, s)
  {
    assert [c][1..] == [];
  }

  lemma DnsSetup(plan: Plan, mode: DnsMode, s: System)
    ensures RunAll(DnsLines(plan, mode), s) == s.(
      links := if mode == Resolvectl then s.links[plan.tun.interfaceName := LinkDns(plan.systemDNS, true)] else s.links,
      resolvConf := if mode == ResolvConfFile then Some("nameserver " + plan.systemDNS + "\n") else s.resolvConf,
      backup := if mode == ResolvConfFile && s.resolvConf.Some? then s.resolvConf else s.backup)
  {
    var d := DnsLines(plan, mode);
    if d != [] {
      assert d == [d[0]] + [d[1], d[2]];
      RunAllConcat([d[0]], [d[1], d[2]], s);
      RunOne(d[0], s);
      RunTwo(d[1], d[2], Effect(d[0], s));
    }
  }

  lemma TunSetup(plan: Plan, s: System)
    ensures RunAll(TunLines(plan.tun), s) == s.(
      rules := s.rules + PolicyRules(plan),
      routes := if HasV4Default(s, plan.tun.routeTable) then s.routes
        else s.routes + {DefaultRoute(V4, plan.tun.interfaceName, plan.tun.routeTable)})
  {
    var z := TunLines(plan.tun);
    assert z == [z[0], z[1]] + ([z[2], z[3]] + [z[4]]);
    RunAllConcat([z[0], z[1]], [z[2], z[3]] + [z[4]], s);
    RunTwo(z[0], z[1], s);
    RunAllConcat([z[2], z[3]], [z[4]], s);
    RunTwo(z[2], z[3], s);
    RunOne(z[4], Effect(z[3], Effect(z[2], s)));
    assert s.rules + {z[2].rule} + {z[4].rule} == s.rules + PolicyRules(plan);
  }

  /** Setup is refused exactly without `ip`, or without iptables when the local DNS proxy is to be used. */
  lemma RefusedIff(plan: Plan, env: Env)
    ensures SetupBatch(plan, env).Refused? <==> !env.hasIp || (plan.systemDNS == "127.0.0.1" && !env.hasIptables)
  {
  }

  /** The record names everything a teardown needs to know. */
  lemma RecordIsComplete(plan: Plan, env: Env)
    requires SetupBatch(plan, env).Batch?
    ensures var ctx := SetupBatch(plan, env).ctx;
      && ctx.serverIPs == plan.serverIPs && ctx.sourceIP == env.sourceIP && ctx.dnsOverride == plan.systemDNS
      && (ctx.dnsMode == Untouched <==> plan.systemDNS == "")
      && (ctx.dnsMode == Resolvectl <==> plan.systemDNS != "" && env.hasResolvectl)
      && (plan.systemDNS == "127.0.0.1" ==> ctx.redirectPort == 1053)
  {
  }

  /** A setup whose lines all take effect installs exactly that, on any machine. */
  lemma WholeSetupResult(plan: Plan, env: Env, home: System)
    requires SetupBatch(plan, env).Batch?
    ensures RunAll(SetupBatch(plan, env).cmds, home) == AfterSetup(plan, env, home)
  {
    var b := SetupBatch(plan, env);
    var a, f, d, z := AddressLines(plan, env), FirewallLines(plan, env), DnsLines(plan, b.ctx.dnsMode),
      TunLines(plan.tun);
    hide AddressLines, FirewallLines, DnsLines, TunLines, RunAll, InFront;
    RunAllConcat(a + f + d, z, home);
    RunAllConcat(a + f, d, home);
    RunAllConcat(a, f, home);
    AddressSetup(plan, env, home);
    FirewallSetup(plan, env, RunAll(a, home));
    DnsSetup(plan, b.ctx.dnsMode, RunAll(f, RunAll(a, home)));
    TunSetup(plan, RunAll(d, RunAll(f, RunAll(a, home))));
  }

  // ------------------------------------------------------------------ where packets go

  datatype Packet = Packet(mark: nat, source: string, destination: string)

  predicate Matches(r: Rule, p: Packet) {
    r.family == V4 &&
    match r.selector
    case To(ip) => p.destination == ip
    case From(ip) => p.source == ip
    case FwMark(m) => p.mark == m
    case Everything => true
  }

  /** A matching rule that no other matching rule precedes, or stands beside with another table. */
  ghost predicate Decides(s: System, p: Packet, r: Rule) {
    && r in s.rules && Matches(r, p)
    && forall q :: q in s.rules && Matches(q, p) && q.pref <= r.pref ==> q.lookup == r.lookup
  }

  ghost predicate LookedUpInMain(s: System, p: Packet) { exists r :: Decides(s, p, r) && r.lookup == MainTable }

  /** The packet is looked up in a table whose one default route leads to the device. */
  ghost predicate LeavesBy(s: System, p: Packet, dev: string) {
    exists r, id :: Decides(s, p, r) && r.lookup == Table(id) && OnlyDefault(s, id, dev)
  }

  ghost predicate OnlyDefault(s: System, table: nat, dev: string) {
    && DefaultRoute(V4, dev, table) in s.routes
    && forall x :: x in s.routes && x.family == V4 && x.table == table ==> x.dev == dev
  }

  /** The machine has no rule of its own that comes before the tunnel's, and the tunnel's table is free. */
  ghost predicate RoomForTunnel(plan: Plan, home: System) {
    (forall r :: r in home.rules && r.family == V4 ==> r.pref > 20) && !HasV4Default(home, plan.tun.routeTable)
  }

  /** Traffic that must not enter the tunnel. */
  predicate Bypasses(plan: Plan, env: Env, p: Packet) {
    || p.mark == plan.tun.socksMark
    || p.destination in plan.serverIPs
    || (env.sourceIP != "" && p.source == env.sourceIP)
  }

  /**
    After a whole setup every packet leaves by the tunnel, but for those the core
    has marked, those to a server and those from the physical source address,
    which are looked up in the main table.
   */
  lemma SetupRoutesTraffic(plan: Plan, env: Env, home: System, p: Packet)
    requires SetupBatch(plan, env).Batch? && RoomForTunnel(plan, home)
    ensures var s := RunAll(SetupBatch(plan, env).cmds, home);
      if Bypasses(plan, env, p) then LookedUpInMain(s, p) else LeavesBy(s, p, plan.tun.interfaceName)
  {
    hide SetupBatch, RunAll;
    WholeSetupResult(plan, env, home);
    var s := AfterSetup(plan, env, home);
    if Bypasses(plan, env, p) {
      BypassingRule(plan, env, home, p);
    } else {
      var r := Rule(V4, Everything, Table(plan.tun.routeTable), 20);
      forall q | q in s.rules && Matches(q, p) && q.pref <= 20 ensures q == r {
        OnlyOwnRules(plan, env, home, q);
      }
      assert Decides(s, p, r) && OnlyDefault(s, plan.tun.routeTable, plan.tun.interfaceName);
    }
  }

  /** Up to pref 20 the machine's V4 rules are the ones setup added. */
  lemma OnlyOwnRules(plan: Plan, env: Env, home: System, q: Rule)
    requires RoomForTunnel(plan, home)
    requires q in AfterSetup(plan, env, home).rules && q.family == V4 && q.pref <= 20
    ensures q in BypassRules(plan, env) || q in PolicyRules(plan)
    ensures q in BypassRules(plan, env) ==>
      q.lookup == MainTable && q.pref < 20 &&
      ((q.selector.To? && q.selector.ip in plan.serverIPs) || (q.selector == From(env.sourceIP) && env.sourceIP != ""))
  {
  }

  lemma BypassingRule(plan: Plan, env: Env, home: System, p: Packet)
    requires RoomForTunnel(plan, home) && Bypasses(plan, env, p)
    ensures LookedUpInMain(AfterSetup(plan, env, home), p)
  {
    var s := AfterSetup(plan, env, home);
    var r: Rule;
    if p.destination in plan.serverIPs {
      var i :| 0 <= i < |plan.serverIPs| && plan.serverIPs[i] == p.destination;
      r := Rule(V4, To(plan.serverIPs[i]), MainTable, 5);
      assert r in BypassRules(plan, env);
    } else if env.sourceIP != "" && p.source == env.sourceIP {
      r := Rule(V4, From(env.sourceIP), MainTable, 8);
    } else {
      r := Rule(V4, FwMark(plan.tun.socksMark), MainTable, 10);
    }
    assert r in s.rules && Matches(r, p) && r.pref <= 10;
    forall q | q in s.rules && Matches(q, p) && q.pref <= r.pref ensures q.lookup == MainTable {
      OnlyOwnRules(plan, env, home, q);
    }
    assert Decides(s, p, r);
  }

  /** Names are resolved as asked for: by the link, by the file, or as before. */
  lemma SetupResolvesNames(plan: Plan, env: Env, home: System)
    requires SetupBatch(plan, env).Batch?
    ensures var s, dev := RunAll(SetupBatch(plan, env).cmds, home), plan.tun.interfaceName;
      && (plan.systemDNS == "" ==> s.links == home.links && s.resolvConf == home.resolvConf)
      && (plan.systemDNS != "" && env.hasResolvectl ==> dev in s.links && s.links[dev] == LinkDns(plan.systemDNS, true))
      && (plan.systemDNS != "" && !env.hasResolvectl ==> s.resolvConf == Some("nameserver " + plan.systemDNS + "\n"))
      && (plan.systemDNS == "127.0.0.1" ==>
        RedirectDns(Udp, 1053) in s.natOutput4 && RedirectDns(Tcp, 1053) in s.natOutput4)
      && (plan.tun.blockQUIC && env.hasIptables ==> DropQuic in s.output4)
  {
    hide SetupBatch, RunAll;
    WholeSetupResult(plan, env, home);
  }

  /** The tunnel's policy rule and default route, which setup checks for. */
  predicate Installed(s: System, tun: Tun) {
    && Rule(V4, Everything, Table(tun.routeTable), 20) in s.rules
    && DefaultRoute(V4, tun.interfaceName, tun.routeTable) in s.routes
  }

  /** Nothing leads to the tunnel's device or looks up its table yet. */
  ghost predicate TunnelUnknown(plan: Plan, home: System) {
    && (forall r :: r in home.rules ==> r.lookup != Table(plan.tun.routeTable))
    && (forall x :: x in home.routes ==> x.dev != plan.tun.interfaceName)
  }

  /**
    The check after a setup is the right one.  Whichever lines failed unnoticed, if
    it passes then all traffic that does not bypass the tunnel leaves by it, and
    on a machine that did not know the tunnel, only if it passes does any.
   */
  lemma InstalledIffTrafficLeaves(plan: Plan, env: Env, home: System, ok: seq<bool>, p: Packet)
    requires SetupBatch(plan, env).Batch? && |ok| <= |SetupBatch(plan, env).cmds|
    requires RoomForTunnel(plan, home) && !Bypasses(plan, env, p)
    ensures var s := RunSome(SetupBatch(plan, env).cmds, ok, home);
      && (Installed(s, plan.tun) ==> LeavesBy(s, p, plan.tun.interfaceName))
      && (LeavesBy(s, p, plan.tun.interfaceName) && TunnelUnknown(plan, home) ==> Installed(s, plan.tun))
  {
    hide SetupBatch, RunSome, TargetRules, Between;
    var b := SetupBatch(plan, env);
    var s := RunSome(b.cmds, ok, home);
    SetupIsCovered(plan, env);
    StartsBetween(b.ctx, plan.tun, home);
    SetupKeepsBetween(b.ctx, plan.tun, home, home, b.cmds, ok);
    RecordIsComplete(plan, env);
    AddedByRecord(b.ctx, plan.tun, home, s);
    if Installed(s, plan.tun) {
      var r := Rule(V4, Everything, Table(plan.tun.routeTable), 20);
      forall q | q in s.rules && Matches(q, p) && q.pref <= 20 ensures q == r {
        assert TeardownDeletes(b.ctx, plan.tun, q);
      }
      assert Decides(s, p, r) && OnlyDefault(s, plan.tun.routeTable, plan.tun.interfaceName);
    }
  }

  lemma AddedByRecord(ctx: RouteContext, tun: Tun, home: System, s: System)
    requires Between(ctx, tun, home, s)
    ensures forall q :: q in s.rules ==> q in home.rules || TeardownDeletes(ctx, tun, q)
    ensures forall x :: x in s.routes ==> x in home.routes || (x.dev == tun.interfaceName && x.table == tun.routeTable)
  {
    hide TeardownDeletes, TargetRules;
    TeardownTargets(ctx, tun);
  }

  /**
    The rules a teardown deletes, line by line: for a server, for the host's own
    address, and in both families for the core's own traffic and for the tunnel.
   */
  predicate TeardownDeletes(ctx: RouteContext, tun: Tun, r: Rule) {
    || (r.selector.To? && r.selector.ip in ctx.serverIPs && r == Rule(V4, r.selector, MainTable, 5))
    || (r.selector.From? && ctx.sourceIP != "" && r == Rule(V4, From(ctx.sourceIP), MainTable, 8))
    || (r.selector == FwMark(tun.socksMark) && r.lookup == MainTable && r.pref == 10)
    || (r.selector == Everything && r.lookup == Table(tun.routeTable) && r.pref == 20)
  }

  lemma TeardownTargets(ctx: RouteContext, tun: Tun)
    ensures forall r :: r in TargetRules(ctx, tun) <==> TeardownDeletes(ctx, tun, r)
  {
    forall r ensures r in TargetRules(ctx, tun) <==> TeardownDeletes(ctx, tun, r) {
      assert r.family == V4 || r.family == V6;
      if TeardownDeletes(ctx, tun, r) && r.selector.To? {
        var i :| 0 <= i < |ctx.serverIPs| && ctx.serverIPs[i] == r.selector.ip;
        assert r == ServerRule(ctx.serverIPs[i]);
      }
    }
  }

  /** A complete teardown on any machine takes away exactly that, the tunnel's routes, and its name server. */
  lemma WholeTeardownResult(ctx: RouteContext, tun: Tun, s: System)
    ensures var now := RunAll(TeardownBatch(ctx, tun), s);
      && (forall r :: r in now.rules <==> r in s.rules && !TeardownDeletes(ctx, tun, r))
      && (forall f, d, n :: DefaultRoute(f, d, n) in now.routes <==>
           DefaultRoute(f, d, n) in s.routes && !(d == tun.interfaceName && n == tun.routeTable))
      && now.output4 == (if tun.blockQUIC then RemoveFirst(s.output4, DropQuic) else s.output4)
      && now.output6 == (if tun.blockQUIC then RemoveFirst(s.output6, DropQuic) else s.output6)
      && now.natOutput4 == (if ctx.redirectPort > 0
           then RemoveFirst(RemoveFirst(s.natOutput4, RedirectDns(Udp, ctx.redirectPort)),
             RedirectDns(Tcp, ctx.redirectPort))
           else s.natOutput4)
      && (ctx.dnsMode == ResolvConfFile ==>
           now.links == s.links && now.backup == None &&
           now.resolvConf == if s.backup.Some? then s.backup else s.resolvConf)
      && (ctx.dnsMode != ResolvConfFile ==>
           now.links == s.links - {tun.interfaceName} && now.backup == s.backup && now.resolvConf == s.resolvConf)
  {
    hide TeardownBatch, RunAll, TeardownDeletes, TargetRules;
    TeardownResult(ctx, tun, s);
    TeardownTargets(ctx, tun);
    assert [DropQuic][1..] == [];
    assert RemoveEach(s.output4, [DropQuic]) == RemoveFirst(s.output4, DropQuic);
    assert RemoveEach(s.output6, [DropQuic]) == RemoveFirst(s.output6, DropQuic);
    RemoveTwo(s.natOutput4, RedirectDns(Udp, ctx.redirectPort), RedirectDns(Tcp, ctx.redirectPort));
    forall f, d, n
      ensures DefaultRoute(f, d, n) in TargetRoutes(tun) <==> d == tun.interfaceName && n == tun.routeTable
    {
      assert f == V4 || f == V6;
    }
  }
}
