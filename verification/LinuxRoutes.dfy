/**
  The Linux half of the tunnel's route setup and teardown: what the shell
  batches do to the routing rules, route tables, iptables chains and resolver
  files, and when a teardown puts everything back.
 */
module LinuxRoutes {

  import opened Options

  // ------------------------------------------------------------------ the system the batches act on

  datatype Family = V4 | V6
  datatype Selector = To(ip: string) | From(ip: string) | FwMark(mark: nat) | Everything
  datatype Lookup = MainTable | Table(id: nat)
  datatype Rule = Rule(family: Family, selector: Selector, lookup: Lookup, pref: nat)
  datatype Route = DefaultRoute(family: Family, dev: string, table: nat)
  datatype Proto = Udp | Tcp
  datatype FwRule = DropQuic | RedirectDns(proto: Proto, port: nat) | OtherRule(id: int)
  datatype Chain = Output4 | Output6 | NatOutput4
  datatype LinkDns = LinkDns(server: string, catchAll: bool)

  datatype System = System(
    rules: set<Rule>,
    routes: set<Route>,
    output4: seq<FwRule>,
    output6: seq<FwRule>,
    natOutput4: seq<FwRule>,
    links: map<string, LinkDns>,
    resolvConf: Option<string>,
    backup: Option<string>)
  {
    function Fw(c: Chain): seq<FwRule> {
      match c
      case Output4 => output4
      case Output6 => output6
      case NatOutput4 => natOutput4
    }

    function WithFw(c: Chain, rs: seq<FwRule>): System {
      match c
      case Output4 => this.(output4 := rs)
      case Output6 => this.(output6 := rs)
      case NatOutput4 => this.(natOutput4 := rs)
    }
  }

  // ------------------------------------------------------------------ shell lines

  datatype Cmd =
    | AddRule(rule: Rule)
    | DelRule(rule: Rule)
    | AddRoute(route: Route)
    | DelRoute(route: Route)
    | EnsureFw(chain: Chain, fw: FwRule)      // iptables -C ... || iptables -I ... 1
    | DeleteFw(chain: Chain, fw: FwRule)      // iptables -D, the first match
    | SetLinkServer(dev: string, server: string)
    | SetLinkCatchAll(dev: string)
    | RevertLink(dev: string)
    | BackUpResolvConf
    | OverwriteResolvConf(server: string)
    | CopyBackupBack                          // the two halves of the teardown's if -f backup
    | RemoveBackup
    | FlushCaches
    | Sysctl(key: string)

  /** Lines ending in `|| true`, which never abort the batch. */
  predicate Masked(c: Cmd) { !c.EnsureFw? && !c.OverwriteResolvConf? }

  function RemoveFirst(rs: seq<FwRule>, r: FwRule): seq<FwRule> {
    if rs == [] then []
    else if rs[0] == r then rs[1..]
    else [rs[0]] + RemoveFirst(rs[1..], r)
  }

  function LinkOf(s: System, dev: string): LinkDns {
    if dev in s.links then s.links[dev] else LinkDns("", false)
  }

  function ResolvFor(server: string): string { "nameserver " + server + "\n" }

  /** What a line does when it succeeds. */
  function Effect(c: Cmd, s: System): System {
    match c
    case AddRule(r) => s.(rules := s.rules + {r})
    case DelRule(r) => s.(rules := s.rules - {r})
    case AddRoute(r) =>
      if exists x :: x in s.routes && x.family == r.family && x.table == r.table then s
      else s.(routes := s.routes + {r})
    case DelRoute(r) => s.(routes := s.routes - {r})
    case EnsureFw(ch, r) => if r in s.Fw(ch) then s else s.WithFw(ch, [r] + s.Fw(ch))
    case DeleteFw(ch, r) => s.WithFw(ch, RemoveFirst(s.Fw(ch), r))
    case SetLinkServer(d, a) => s.(links := s.links[d := LinkOf(s, d).(server := a)])
    case SetLinkCatchAll(d) => s.(links := s.links[d := LinkOf(s, d).(catchAll := true)])
    case RevertLink(d) => s.(links := s.links - {d})
    case BackUpResolvConf => if s.resolvConf.Some? then s.(backup := s.resolvConf) else s
    case OverwriteResolvConf(a) => s.(resolvConf := Some(ResolvFor(a)))
    case CopyBackupBack => if s.backup.Some? then s.(resolvConf := s.backup) else s
    case RemoveBackup => s.(backup := None)
    case FlushCaches => s
    case Sysctl(_) => s
  }

  /** A batch in which line t takes effect iff ok[t]; lines from |ok| on are never reached. */
  function RunSome(cmds: seq<Cmd>, ok: seq<bool>, s: System): System
    requires |ok| <= |cmds|
    decreases |ok|
  {
    if ok == [] then s
    else RunSome(cmds[1..], ok[1..], if ok[0] then Effect(cmds[0], s) else s)
  }

  function RunAll(cmds: seq<Cmd>, s: System): System {
    if cmds == [] then s else RunAll(cmds[1..], Effect(cmds[0], s))
  }

  // ------------------------------------------------------------------ what setup is asked for

  datatype Tun = Tun(interfaceName: string, socksMark: nat, routeTable: nat, blockQUIC: bool)

  /** SystemDNS is "" to leave the resolver alone. */
  datatype Plan = Plan(tun: Tun, serverIPs: seq<string>, systemDNS: string, dnsRedirectPort: nat)

  /** What setup finds out about the machine. */
  datatype Env = Env(hasIp: bool, hasIptables: bool, sourceIP: string, hasResolvectl: bool)

  datatype DnsMode = Untouched | Resolvectl | ResolvConfFile

  /** The recovery record: enough for a later teardown. */
  datatype RouteContext = RouteContext(
    serverIPs: seq<string>, sourceIP: string, dnsMode: DnsMode, dnsOverride: string, redirectPort: nat)

  datatype Batch = Refused | Batch(ctx: RouteContext, cmds: seq<Cmd>)

  const LOOPBACK := "127.0.0.1"
  const DNS_PROXY_PORT: nat := 1053

  function ServerRule(ip: string): Rule { Rule(V4, To(ip), MainTable, 5) }
  function SourceRule(ip: string): Rule { Rule(V4, From(ip), MainTable, 8) }
  function MarkRule(f: Family, tun: Tun): Rule { Rule(f, FwMark(tun.socksMark), MainTable, 10) }
  function TunRule(f: Family, tun: Tun): Rule { Rule(f, Everything, Table(tun.routeTable), 20) }
  function TunRoute(f: Family, tun: Tun): Route { DefaultRoute(f, tun.interfaceName, tun.routeTable) }

  /** setupRoutes and setupRoutesLinux up to the `prepared` callback. */
  function SetupBatch(plan: Plan, env: Env): Batch {
    var dns := plan.systemDNS;
    var redirect := if dns == "" then 0 else if dns == LOOPBACK then DNS_PROXY_PORT else plan.dnsRedirectPort;
    if !env.hasIp || (dns == LOOPBACK && !env.hasIptables) then Refused
    else
      var mode := if dns == "" then Untouched else if env.hasResolvectl then Resolvectl else ResolvConfFile;
      var ctx := RouteContext(plan.serverIPs, env.sourceIP, mode, dns, redirect);
      Batch(ctx, AddressLines(plan, env) + FirewallLines(plan, env) + DnsLines(plan, mode) + TunLines(plan.tun))
  }

  function AddressLines(plan: Plan, env: Env): seq<Cmd> {
    seq(|plan.serverIPs|, i requires 0 <= i < |plan.serverIPs| => AddRule(ServerRule(plan.serverIPs[i]))) +
    if env.sourceIP == "" then [] else [AddRule(SourceRule(env.sourceIP))]
  }

  function FirewallLines(plan: Plan, env: Env): seq<Cmd> {
    (if plan.tun.blockQUIC && env.hasIptables then [EnsureFw(Output4, DropQuic)] else []) +
    if plan.systemDNS != LOOPBACK then []
    else [EnsureFw(NatOutput4, RedirectDns(Udp, DNS_PROXY_PORT)),
      EnsureFw(NatOutput4, RedirectDns(Tcp, DNS_PROXY_PORT))]
  }

  function DnsLines(plan: Plan, mode: DnsMode): seq<Cmd> {
    match mode
    case Untouched => []
    case Resolvectl => [SetLinkServer(plan.tun.interfaceName, plan.systemDNS), SetLinkCatchAll(plan.tun.interfaceName),
      FlushCaches]
    case ResolvConfFile => [BackUpResolvConf, OverwriteResolvConf(plan.systemDNS), FlushCaches]
  }

  function TunLines(tun: Tun): seq<Cmd> {
    [Sysctl("all"), Sysctl(tun.interfaceName),
     AddRule(MarkRule(V4, tun)), AddRoute(TunRoute(V4, tun)), AddRule(TunRule(V4, tun))]
  }

  /** teardownRoutesLinux. */
  function TeardownBatch(ctx: RouteContext, tun: Tun): seq<Cmd> {
    DelAddressLines(ctx) + DelQuicLines(tun) + UndoDnsLines(ctx, tun) + DelRedirectLines(ctx) + DelTunLines(tun)
  }

  function DelQuicLines(tun: Tun): seq<Cmd> {
    if tun.blockQUIC then [DeleteFw(Output4, DropQuic), DeleteFw(Output6, DropQuic)] else []
  }

  function DelRedirectLines(ctx: RouteContext): seq<Cmd> {
    if ctx.redirectPort > 0
    then [DeleteFw(NatOutput4, RedirectDns(Udp, ctx.redirectPort)),
      DeleteFw(NatOutput4, RedirectDns(Tcp, ctx.redirectPort))]
    else []
  }

  function DelTunLines(tun: Tun): seq<Cmd> {
    [DelRule(MarkRule(V4, tun)), DelRule(MarkRule(V6, tun)), DelRule(TunRule(V4, tun)), DelRule(TunRule(V6, tun)),
     DelRoute(TunRoute(V4, tun)), DelRoute(TunRoute(V6, tun))]
  }

  function DelAddressLines(ctx: RouteContext): seq<Cmd> {
    seq(|ctx.serverIPs|, i requires 0 <= i < |ctx.serverIPs| => DelRule(ServerRule(ctx.serverIPs[i]))) +
    if ctx.sourceIP == "" then [] else [DelRule(SourceRule(ctx.sourceIP))]
  }

  function UndoDnsLines(ctx: RouteContext, tun: Tun): seq<Cmd> {
    match ctx.dnsMode
    case Resolvectl => [RevertLink(tun.interfaceName), FlushCaches]
    case ResolvConfFile => [CopyBackupBack, RemoveBackup, FlushCaches]
    case Untouched => [RevertLink(tun.interfaceName), FlushCaches]
  }

  // ------------------------------------------------------------------ what a teardown removes

  function TargetRules(ctx: RouteContext, tun: Tun): set<Rule> {
    (set i | 0 <= i < |ctx.serverIPs| :: ServerRule(ctx.serverIPs[i])) +
    (if ctx.sourceIP == "" then {} else {SourceRule(ctx.sourceIP)}) +
    {MarkRule(V4, tun), MarkRule(V6, tun), TunRule(V4, tun), TunRule(V6, tun)}
  }

  function TargetRoutes(tun: Tun): set<Route> { {TunRoute(V4, tun), TunRoute(V6, tun)} }

  function TargetFw(ctx: RouteContext, tun: Tun, c: Chain): seq<FwRule> {
    match c
    case Output4 => if tun.blockQUIC then [DropQuic] else []
    case Output6 => if tun.blockQUIC then [DropQuic] else []
    case NatOutput4 =>
      if ctx.redirectPort > 0
      then [RedirectDns(Udp, ctx.redirectPort), RedirectDns(Tcp, ctx.redirectPort)]
      else []
  }

  /** Nothing a teardown would remove is there yet. */
  ghost predicate Clean(ctx: RouteContext, tun: Tun, s: System) {
    && s.rules !! TargetRules(ctx, tun)
    && s.routes !! TargetRoutes(tun)
    && (forall c, r :: r in TargetFw(ctx, tun, c) ==> r !in s.Fw(c))
    && (ctx.dnsMode != ResolvConfFile ==> tun.interfaceName !in s.links)
    && (ctx.dnsMode == ResolvConfFile ==> s.backup == None)
  }

  // ------------------------------------------------------------------ running batches

  lemma {:induction false} RunAllConcat(a: seq<Cmd>, b: seq<Cmd>, s: System)
    ensures RunAll(a + b, s) == RunAll(b, RunAll(a, s))
  {
    if a == [] {
      assert a + b == b;
    } else {
      assert (a + b)[1..] == a[1..] + b;
      RunAllConcat(a[1..], b, Effect(a[0], s));
    }
  }

  lemma {:induction false} RunSomeConcat(a: seq<Cmd>, b: seq<Cmd>, ok: seq<bool>, s: System)
    requires |ok| <= |a| + |b|
    ensures RunSome(a + b, ok, s) ==
      if |ok| <= |a| then RunSome(a, ok, s) else RunSome(b, ok[|a|..], RunSome(a, ok[..|a|], s))
    decreases |a|
  {
    if a == [] {
      assert a + b == b && ok[..0] == [] && ok[0..] == ok;
    } else if ok != [] {
      assert (a + b)[1..] == a[1..] + b;
      RunSomeConcat(a[1..], b, ok[1..], if ok[0] then Effect(a[0], s) else s);
      if |ok| > |a| {
        assert ok[1..][|a| - 1..] == ok[|a|..] && ok[1..][..|a| - 1] == ok[..|a|][1..];
      }
    }
  }

  ghost function RulesDeleted(cmds: seq<Cmd>): set<Rule> {
    set i | 0 <= i < |cmds| && cmds[i].DelRule? :: cmds[i].rule
  }

  lemma {:induction false} RunRuleDeletions(cmds: seq<Cmd>, s: System)
    requires forall i :: 0 <= i < |cmds| ==> cmds[i].DelRule?
    ensures RunAll(cmds, s) == s.(rules := s.rules - RulesDeleted(cmds))
  {
    if cmds == [] {
      assert RulesDeleted(cmds) == {};
      assert s.rules - {} == s.rules;
    } else {
      RunRuleDeletions(cmds[1..], Effect(cmds[0], s));
      assert RulesDeleted(cmds) == {cmds[0].rule} + RulesDeleted(cmds[1..]) by {
        forall r | r in RulesDeleted(cmds) ensures r in {cmds[0].rule} + RulesDeleted(cmds[1..]) {
          var i :| 0 <= i < |cmds| && cmds[i].rule == r;
          if i != 0 { assert cmds[1..][i - 1].rule == r; }
        }
        forall r | r in RulesDeleted(cmds[1..]) ensures r in RulesDeleted(cmds) {
          var i :| 0 <= i < |cmds| - 1 && cmds[1..][i].rule == r;
          assert cmds[i + 1].rule == r;
        }
      }
      assert s.rules - {cmds[0].rule} - RulesDeleted(cmds[1..]) == s.rules - RulesDeleted(cmds);
    }
  }

  lemma {:induction false} RemoveFirstCounts(rs: seq<FwRule>, r: FwRule)
    ensures multiset(RemoveFirst(rs, r)) == multiset(rs) - multiset{r}
  {
    if rs != [] {
      assert rs == [rs[0]] + rs[1..];
      if rs[0] != r { RemoveFirstCounts(rs[1..], r); }
    }
  }

  function RemoveEach(rs: seq<FwRule>, targets: seq<FwRule>): seq<FwRule>
    decreases |targets|
  {
    if targets == [] then rs else RemoveEach(RemoveFirst(rs, targets[0]), targets[1..])
  }

  lemma RemoveTwo(rs: seq<FwRule>, a: FwRule, b: FwRule)
    ensures RemoveEach(rs, [a, b]) == RemoveFirst(RemoveFirst(rs, a), b)
  {
    assert [a, b][1..] == [b] && [b][1..] == [];
    assert RemoveEach(RemoveFirst(rs, a), [b]) == RemoveEach(RemoveFirst(RemoveFirst(rs, a), b), [b][1..]);
  }

  /** The state a complete teardown leaves, component by component. */
  function AfterTeardown(ctx: RouteContext, tun: Tun, s: System): System {
    System(
      s.rules - TargetRules(ctx, tun),
      s.routes - TargetRoutes(tun),
      RemoveEach(s.output4, TargetFw(ctx, tun, Output4)),
      RemoveEach(s.output6, TargetFw(ctx, tun, Output6)),
      RemoveEach(s.natOutput4, TargetFw(ctx, tun, NatOutput4)),
      if ctx.dnsMode == ResolvConfFile then s.links else s.links - {tun.interfaceName},
      if ctx.dnsMode == ResolvConfFile && s.backup.Some? then s.backup else s.resolvConf,
      if ctx.dnsMode == ResolvConfFile then None else s.backup)
  }

  lemma RunTwo(a: Cmd, b: Cmd, s: System)
    ensures RunAll([a, b], s) == Effect(b, Effect(a, s))
  {
    assert [a, b][1..] == [b];
    assert RunAll([b], Effect(a, s)) == RunAll([b][1..], Effect(b, Effect(a, s)));
  }

  lemma QuicResult(ctx: RouteContext, tun: Tun, s: System)
    ensures RunAll(DelQuicLines(tun), s) == s.(
      output4 := RemoveEach(s.output4, TargetFw(ctx, tun, Output4)),
      output6 := RemoveEach(s.output6, TargetFw(ctx, tun, Output6)))
  {
    if tun.blockQUIC {
      RunTwo(DeleteFw(Output4, DropQuic), DeleteFw(Output6, DropQuic), s);
      assert [DropQuic][1..] == [];
    }
  }

  lemma RedirectResult(ctx: RouteContext, tun: Tun, s: System)
    ensures RunAll(DelRedirectLines(ctx), s) ==
      s.(natOutput4 := RemoveEach(s.natOutput4, TargetFw(ctx, tun, NatOutput4)))
  {
    if ctx.redirectPort > 0 {
      var u, t := RedirectDns(Udp, ctx.redirectPort), RedirectDns(Tcp, ctx.redirectPort);
      RunTwo(DeleteFw(NatOutput4, u), DeleteFw(NatOutput4, t), s);
      RemoveTwo(s.natOutput4, u, t);
    }
  }

  lemma UndoDnsResult(ctx: RouteContext, tun: Tun, s: System)
    ensures RunAll(UndoDnsLines(ctx, tun), s) == s.(
      links := if ctx.dnsMode == ResolvConfFile then s.links else s.links - {tun.interfaceName},
      resolvConf := if ctx.dnsMode == ResolvConfFile && s.backup.Some? then s.backup else s.resolvConf,
      backup := if ctx.dnsMode == ResolvConfFile then None else s.backup)
  {
    if ctx.dnsMode == ResolvConfFile {
      assert UndoDnsLines(ctx, tun)[1..] == [RemoveBackup, FlushCaches];
      RunTwo(RemoveBackup, FlushCaches, Effect(CopyBackupBack, s));
    } else {
      RunTwo(RevertLink(tun.interfaceName), FlushCaches, s);
    }
  }

  lemma TunResult(tun: Tun, s: System)
    ensures RunAll(DelTunLines(tun), s) == s.(
      rules := s.rules - {MarkRule(V4, tun), MarkRule(V6, tun), TunRule(V4, tun), TunRule(V6, tun)},
      routes := s.routes - TargetRoutes(tun))
  {
    var a := [DelRule(MarkRule(V4, tun)), DelRule(MarkRule(V6, tun)), DelRule(TunRule(V4, tun)),
      DelRule(TunRule(V6, tun))];
    var b := [DelRoute(TunRoute(V4, tun)), DelRoute(TunRoute(V6, tun))];
    assert DelTunLines(tun) == a + b;
    RunAllConcat(a, b, s);
    RunRuleDeletions(a, s);
    assert RulesDeleted(a) == {MarkRule(V4, tun), MarkRule(V6, tun), TunRule(V4, tun), TunRule(V6, tun)} by {
      assert a[0].rule in RulesDeleted(a) && a[1].rule in RulesDeleted(a) && a[2].rule in RulesDeleted(a) &&
        a[3].rule in RulesDeleted(a);
    }
    var s1 := RunAll(a, s);
    RunTwo(DelRoute(TunRoute(V4, tun)), DelRoute(TunRoute(V6, tun)), s1);
    assert s1.routes - {TunRoute(V4, tun)} - {TunRoute(V6, tun)} == s1.routes - TargetRoutes(tun);
  }

  lemma AddressResult(ctx: RouteContext, tun: Tun, s: System)
    ensures RunAll(DelAddressLines(ctx), s) == s.(rules := s.rules - RulesDeleted(DelAddressLines(ctx)))
    ensures RulesDeleted(DelAddressLines(ctx)) +
      {MarkRule(V4, tun), MarkRule(V6, tun), TunRule(V4, tun), TunRule(V6, tun)}
      == TargetRules(ctx, tun)
  {
    var a := DelAddressLines(ctx);
    RunRuleDeletions(a, s);
    forall r | r in TargetRules(ctx, tun)
      ensures r in RulesDeleted(a) || r in {MarkRule(V4, tun), MarkRule(V6, tun), TunRule(V4, tun), TunRule(V6, tun)}
    {
      if i :| 0 <= i < |ctx.serverIPs| && r == ServerRule(ctx.serverIPs[i]) {
        assert a[i].rule == r;
      } else if ctx.sourceIP != "" && r == SourceRule(ctx.sourceIP) {
        assert a[|ctx.serverIPs|].rule == r;
      }
    }
  }

  lemma TeardownResult(ctx: RouteContext, tun: Tun, s: System)
    ensures RunAll(TeardownBatch(ctx, tun), s) == AfterTeardown(ctx, tun, s)
  {
    var a, q, d, n, t := DelAddressLines(ctx), DelQuicLines(tun), UndoDnsLines(ctx, tun), DelRedirectLines(ctx),
      DelTunLines(tun);
    RunAllConcat(a + q + d + n, t, s);
    RunAllConcat(a + q + d, n, s);
    RunAllConcat(a + q, d, s);
    RunAllConcat(a, q, s);
    AddressResult(ctx, tun, s);
    var s1 := RunAll(a, s);
    QuicResult(ctx, tun, s1);
    var s2 := RunAll(q, s1);
    UndoDnsResult(ctx, tun, s2);
    var s3 := RunAll(d, s2);
    RedirectResult(ctx, tun, s3);
    TunResult(tun, RunAll(n, s3));
    assert s.rules - RulesDeleted(a) - {MarkRule(V4, tun), MarkRule(V6, tun), TunRule(V4, tun), TunRule(V6, tun)} ==
      s.rules - TargetRules(ctx, tun);
  }

  // ------------------------------------------------------------------ what setup can have done so far

  /** now is base with some targets, each at most once and none of them in base, in front of it. */
  ghost predicate FwAbove(base: seq<FwRule>, targets: seq<FwRule>, now: seq<FwRule>) {
    exists ins :: now == ins + base && Fresh(ins, base, targets)
  }

  ghost predicate Fresh(ins: seq<FwRule>, base: seq<FwRule>, targets: seq<FwRule>) {
    && (forall r :: r in ins ==> r in targets && r !in base)
    && forall i, j :: 0 <= i < j < |ins| ==> ins[i] != ins[j]
  }

  /** s is home plus some of what the record names; the resolver files apart. */
  ghost predicate Between(ctx: RouteContext, tun: Tun, home: System, s: System) {
    && home.rules <= s.rules <= home.rules + TargetRules(ctx, tun)
    && home.routes <= s.routes <= home.routes + TargetRoutes(tun)
    && (forall c :: FwAbove(home.Fw(c), TargetFw(ctx, tun, c), s.Fw(c)))
    && s.links - {tun.interfaceName} == home.links - {tun.interfaceName}
    && (ctx.dnsMode == ResolvConfFile ==> s.links == home.links)
    && (ctx.dnsMode != ResolvConfFile ==> s.resolvConf == home.resolvConf && s.backup == home.backup)
  }

  ghost predicate SetupLine(ctx: RouteContext, tun: Tun, c: Cmd) {
    match c
    case AddRule(r) => r in TargetRules(ctx, tun)
    case AddRoute(r) => r in TargetRoutes(tun)
    case EnsureFw(ch, r) => r in TargetFw(ctx, tun, ch)
    case SetLinkServer(d, _) => ctx.dnsMode != ResolvConfFile && d == tun.interfaceName
    case SetLinkCatchAll(d) => ctx.dnsMode != ResolvConfFile && d == tun.interfaceName
    case BackUpResolvConf => ctx.dnsMode == ResolvConfFile
    case OverwriteResolvConf(a) => ctx.dnsMode == ResolvConfFile && a == ctx.dnsOverride
    case FlushCaches => true
    case Sysctl(_) => true
    case _ => false
  }

  lemma StartsBetween(ctx: RouteContext, tun: Tun, s: System)
    ensures Between(ctx, tun, s, s)
  {
    forall c ensures FwAbove(s.Fw(c), TargetFw(ctx, tun, c), s.Fw(c)) {
      assert s.Fw(c) == [] + s.Fw(c) && Fresh([], s.Fw(c), TargetFw(ctx, tun, c));
    }
  }

  lemma InsertKeepsFwAbove(base: seq<FwRule>, targets: seq<FwRule>, now: seq<FwRule>, r: FwRule)
    requires FwAbove(base, targets, now) && r in targets && r !in now
    ensures FwAbove(base, targets, [r] + now)
  {
    var ins :| now == ins + base && Fresh(ins, base, targets);
    assert forall x :: x in ins || x in base ==> x in now;
    assert [r] + now == ([r] + ins) + base && Fresh([r] + ins, base, targets);
  }

  lemma SetupLineKeepsBetween(ctx: RouteContext, tun: Tun, home: System, s: System, c: Cmd)
    requires Between(ctx, tun, home, s) && SetupLine(ctx, tun, c)
    ensures Between(ctx, tun, home, Effect(c, s))
  {
    match c {
      case EnsureFw(ch, r) =>
        if r !in s.Fw(ch) {
          InsertKeepsFwAbove(home.Fw(ch), TargetFw(ctx, tun, ch), s.Fw(ch), r);
          var s' := Effect(c, s);
          forall x ensures FwAbove(home.Fw(x), TargetFw(ctx, tun, x), s'.Fw(x)) {
            assert x != ch ==> s'.Fw(x) == s.Fw(x);
          }
        }
      case SetLinkServer(d, a) =>
        assert s.links[d := LinkOf(s, d).(server := a)] - {d} == s.links - {d};
        SameFw(ctx, tun, home, s, Effect(c, s));
      case SetLinkCatchAll(d) =>
        assert s.links[d := LinkOf(s, d).(catchAll := true)] - {d} == s.links - {d};
        SameFw(ctx, tun, home, s, Effect(c, s));
      case _ => SameFw(ctx, tun, home, s, Effect(c, s));
    }
  }

  lemma SameFw(ctx: RouteContext, tun: Tun, home: System, s: System, s': System)
    requires forall c :: FwAbove(home.Fw(c), TargetFw(ctx, tun, c), s.Fw(c))
    requires s'.output4 == s.output4 && s'.output6 == s.output6 && s'.natOutput4 == s.natOutput4
    ensures forall c :: FwAbove(home.Fw(c), TargetFw(ctx, tun, c), s'.Fw(c))
  {
    forall c ensures FwAbove(home.Fw(c), TargetFw(ctx, tun, c), s'.Fw(c)) {
      assert s'.Fw(c) == s.Fw(c);
    }
  }

  lemma {:induction false} SetupKeepsBetween(ctx: RouteContext, tun: Tun, home: System, s: System, cmds: seq<Cmd>,
    ok: seq<bool>)
    requires Between(ctx, tun, home, s) && |ok| <= |cmds|
    requires forall i :: 0 <= i < |cmds| ==> SetupLine(ctx, tun, cmds[i])
    ensures Between(ctx, tun, home, RunSome(cmds, ok, s))
    decreases |ok|
  {
    if ok != [] {
      SetupLineKeepsBetween(ctx, tun, home, s, cmds[0]);
      SetupKeepsBetween(ctx, tun, home, if ok[0] then Effect(cmds[0], s) else s, cmds[1..], ok[1..]);
    }
  }

  /** Every line setup issues is covered by the record it hands to `prepared`. */
  lemma SetupIsCovered(plan: Plan, env: Env)
    requires SetupBatch(plan, env).Batch?
    ensures var b := SetupBatch(plan, env); forall i :: 0 <= i < |b.cmds| ==> SetupLine(b.ctx, plan.tun, b.cmds[i])
  {
    var b := SetupBatch(plan, env);
    var parts := [AddressLines(plan, env), FirewallLines(plan, env), DnsLines(plan, b.ctx.dnsMode), TunLines(plan.tun)];
    AddressLinesCovered(plan, env, b.ctx);
    forall c | c in FirewallLines(plan, env) ensures SetupLine(b.ctx, plan.tun, c) { }
    forall c | c in DnsLines(plan, b.ctx.dnsMode) ensures SetupLine(b.ctx, plan.tun, c) { }
    forall c | c in TunLines(plan.tun) ensures SetupLine(b.ctx, plan.tun, c) { }
    forall i | 0 <= i < |b.cmds| ensures SetupLine(b.ctx, plan.tun, b.cmds[i]) {
      assert b.cmds[i] in b.cmds;
      assert b.cmds[i] in parts[0] || b.cmds[i] in parts[1] || b.cmds[i] in parts[2] || b.cmds[i] in parts[3];
    }
  }

  lemma AddressLinesCovered(plan: Plan, env: Env, ctx: RouteContext)
    requires ctx.serverIPs == plan.serverIPs && ctx.sourceIP == env.sourceIP
    ensures forall c :: c in AddressLines(plan, env) ==> SetupLine(ctx, plan.tun, c)
  {
    forall c | c in AddressLines(plan, env) ensures SetupLine(ctx, plan.tun, c) {
      var i :| 0 <= i < |AddressLines(plan, env)| && AddressLines(plan, env)[i] == c;
      if i < |plan.serverIPs| { assert c.rule == ServerRule(ctx.serverIPs[i]); }
    }
  }

  // ------------------------------------------------------------------ the resolver file

  /** The states the resolver file and its backup can be in, in resolv.conf mode. */
  ghost predicate ResolvBetween(ctx: RouteContext, home: System, s: System) {
    && (s.backup == home.backup || (home.resolvConf.Some? && s.backup == home.resolvConf))
    && (s.resolvConf == home.resolvConf || s.resolvConf == Some(ResolvFor(ctx.dnsOverride)))
  }

  ghost predicate TouchesResolv(c: Cmd) {
    c.BackUpResolvConf? || c.OverwriteResolvConf? || c.CopyBackupBack? || c.RemoveBackup?
  }

  lemma {:induction false} ResolvUntouched(cmds: seq<Cmd>, ok: seq<bool>, s: System)
    requires |ok| <= |cmds| && forall i :: 0 <= i < |cmds| ==> !TouchesResolv(cmds[i])
    ensures RunSome(cmds, ok, s).resolvConf == s.resolvConf && RunSome(cmds, ok, s).backup == s.backup
    decreases |ok|
  {
    if ok != [] {
      ResolvUntouched(cmds[1..], ok[1..], if ok[0] then Effect(cmds[0], s) else s);
    }
  }

  lemma ResolvAfterDnsLines(plan: Plan, mode: DnsMode, ctx: RouteContext, ok: seq<bool>, s: System)
    requires |ok| <= |DnsLines(plan, mode)| && ctx.dnsOverride == plan.systemDNS
    ensures ResolvBetween(ctx, s, RunSome(DnsLines(plan, mode), ok, s))
  {
    if mode == ResolvConfFile {
      var d := DnsLines(plan, mode);
      var s1 := if |ok| > 0 && ok[0] then Effect(BackUpResolvConf, s) else s;
      var s2 := if |ok| > 1 && ok[1] then Effect(OverwriteResolvConf(plan.systemDNS), s1) else s1;
      assert d[1..] == [OverwriteResolvConf(plan.systemDNS), FlushCaches] && d[1..][1..] == [FlushCaches];
      if |ok| == 3 { assert RunSome(d, ok, s) == RunSome([FlushCaches], ok[1..][1..], s2) == s2; }
      else if |ok| == 2 { assert RunSome(d, ok, s) == RunSome([FlushCaches], ok[1..][1..], s2) == s2; }
      else if |ok| == 1 { assert RunSome(d, ok, s) == RunSome(d[1..], ok[1..], s1) == s1; }
    } else {
      ResolvUntouched(DnsLines(plan, mode), ok, s);
    }
  }

  lemma ResolvAfterSetup(plan: Plan, env: Env, ok: seq<bool>, s: System)
    requires SetupBatch(plan, env).Batch? && |ok| <= |SetupBatch(plan, env).cmds|
    ensures ResolvBetween(SetupBatch(plan, env).ctx, s, RunSome(SetupBatch(plan, env).cmds, ok, s))
  {
    var b := SetupBatch(plan, env);
    var a, d, t := AddressLines(plan, env) + FirewallLines(plan, env), DnsLines(plan, b.ctx.dnsMode),
      TunLines(plan.tun);
    forall i | 0 <= i < |a| ensures !TouchesResolv(a[i]) { }
    RunSomeConcat(a + d, t, ok, s);
    var okAD := if |ok| <= |a + d| then ok else ok[..|a + d|];
    RunSomeConcat(a, d, okAD, s);
    if |okAD| <= |a| {
      ResolvUntouched(a, okAD, s);
    } else {
      ResolvUntouched(a, okAD[..|a|], s);
      ResolvAfterDnsLines(plan, b.ctx.dnsMode, b.ctx, okAD[|a|..], RunSome(a, okAD[..|a|], s));
    }
    if |ok| > |a + d| {
      ResolvUntouched(t, ok[|a + d|..], RunSome(a + d, okAD, s));
    }
  }

  // ------------------------------------------------------------------ when teardown restores everything

  lemma {:induction false} RemoveFirstInFront(ins: seq<FwRule>, base: seq<FwRule>, r: FwRule)
    requires r !in base
    ensures RemoveFirst(ins + base, r) == RemoveFirst(ins, r) + base
  {
    if ins == [] {
      assert ins + base == base;
      RemoveFirstAbsent(base, r);
    } else {
      assert (ins + base)[1..] == ins[1..] + base;
      if ins[0] != r { RemoveFirstInFront(ins[1..], base, r); }
    }
  }

  lemma {:induction false} RemoveFirstAbsent(rs: seq<FwRule>, r: FwRule)
    requires r !in rs
    ensures RemoveFirst(rs, r) == rs
  {
    if rs != [] {
      RemoveFirstAbsent(rs[1..], r);
      assert rs == [rs[0]] + rs[1..];
    }
  }

  ghost predicate Distinct(rs: seq<FwRule>) { forall i, j :: 0 <= i < j < |rs| ==> rs[i] != rs[j] }

  lemma {:induction false} RemoveFirstOfDistinct(rs: seq<FwRule>, r: FwRule)
    requires Distinct(rs)
    ensures Distinct(RemoveFirst(rs, r))
    ensures forall x :: x in RemoveFirst(rs, r) <==> x in rs && x != r
  {
    if rs != [] {
      assert rs == [rs[0]] + rs[1..];
      RemoveFirstOfDistinct(rs[1..], r);
      if rs[0] != r {
        var rest := RemoveFirst(rs[1..], r);
        assert rs[0] !in rest by { assert rs[0] !in rs[1..]; }
        assert Distinct([rs[0]] + rest);
      } else {
        assert r !in rs[1..];
      }
    }
  }

  lemma {:induction false} RemoveEachClears(ins: seq<FwRule>, base: seq<FwRule>, targets: seq<FwRule>)
    requires Distinct(ins) && Distinct(targets)
    requires forall r :: r in ins ==> r in targets
    requires forall r :: r in targets ==> r !in base
    ensures RemoveEach(ins + base, targets) == base
    decreases |targets|
  {
    if targets == [] {
      EmptyIfNoMember(ins);
      assert ins + base == base;
    } else {
      var t := targets[0];
      assert targets == [t] + targets[1..];
      RemoveFirstInFront(ins, base, t);
      RemoveFirstOfDistinct(ins, t);
      RemoveEachClears(RemoveFirst(ins, t), base, targets[1..]);
    }
  }

  lemma EmptyIfNoMember(rs: seq<FwRule>)
    ensures rs == [] || exists r :: r in rs
  {
    if rs != [] { assert rs[0] in rs; }
  }

  lemma {:induction false} RemoveEachCounts(rs: seq<FwRule>, targets: seq<FwRule>)
    ensures multiset(RemoveEach(rs, targets)) == multiset(rs) - multiset(targets)
    decreases |targets|
  {
    if targets != [] {
      assert targets == [targets[0]] + targets[1..];
      RemoveFirstCounts(rs, targets[0]);
      RemoveEachCounts(RemoveFirst(rs, targets[0]), targets[1..]);
    }
  }

  lemma TargetsDistinct(ctx: RouteContext, tun: Tun, c: Chain)
    ensures Distinct(TargetFw(ctx, tun, c))
  {
  }

  /** A chain comes back iff it held none of the targets to begin with. */
  lemma ChainRestored(base: seq<FwRule>, targets: seq<FwRule>, now: seq<FwRule>)
    requires Distinct(targets) && FwAbove(base, targets, now)
    ensures RemoveEach(now, targets) == base <==> forall r :: r in targets ==> r !in base
  {
    var ins :| now == ins + base && Fresh(ins, base, targets);
    if forall r :: r in targets ==> r !in base {
      RemoveEachClears(ins, base, targets);
    } else {
      var r :| r in targets && r in base;
      RemoveEachCounts(now, targets);
      assert r !in ins;
      assert multiset(now)[r] == multiset(ins)[r] + multiset(base)[r] == multiset(base)[r];
      assert r in multiset(base) && r in multiset(targets);
    }
  }

  /** resolv.conf has been overwritten although no backup of it exists. */
  ghost predicate BackupLost(home: System, s: System) {
    s.backup.None? && s.resolvConf != home.resolvConf
  }

  /**
    A teardown gives home back from anything setup can have left, exactly when home
    was clean and no backup was lost.
   */
  lemma TeardownRestoresIff(ctx: RouteContext, tun: Tun, home: System, s: System)
    requires Between(ctx, tun, home, s)
    requires ctx.dnsMode == ResolvConfFile ==> ResolvBetween(ctx, home, s)
    ensures RunAll(TeardownBatch(ctx, tun), s) == home <==>
      Clean(ctx, tun, home) && (ctx.dnsMode == ResolvConfFile ==> !BackupLost(home, s))
  {
    TeardownResult(ctx, tun, s);
    var e := AfterTeardown(ctx, tun, s);
    RulesRestored(home.rules, s.rules, TargetRules(ctx, tun));
    RulesRestored(home.routes, s.routes, TargetRoutes(tun));
    forall c ensures e.Fw(c) == RemoveEach(s.Fw(c), TargetFw(ctx, tun, c)) { }
    forall c ensures e.Fw(c) == home.Fw(c) <==> forall r :: r in TargetFw(ctx, tun, c) ==> r !in home.Fw(c) {
      TargetsDistinct(ctx, tun, c);
      ChainRestored(home.Fw(c), TargetFw(ctx, tun, c), s.Fw(c));
    }
    assert (e.Fw(Output4) == home.Fw(Output4) && e.Fw(Output6) == home.Fw(Output6) &&
      e.Fw(NatOutput4) == home.Fw(NatOutput4))
      <==> forall c, r :: r in TargetFw(ctx, tun, c) ==> r !in home.Fw(c);
    LinksRestored(home.links, s.links, tun.interfaceName);
  }

  lemma RulesRestored<T>(home: set<T>, now: set<T>, targets: set<T>)
    requires home <= now <= home + targets
    ensures now - targets == home <==> home !! targets
  {
  }

  lemma LinksRestored(home: map<string, LinkDns>, now: map<string, LinkDns>, dev: string)
    requires now - {dev} == home - {dev}
    ensures now - {dev} == home <==> dev !in home
  {
    if dev !in home { assert home - {dev} == home; }
  }

  /**
    The main result: after any prefix of a setup batch, with any of its lines
    failing, the teardown built from the record restores the system exactly when
    nothing it removes was there before and no unbacked resolv.conf was overwritten.
   */
  lemma TeardownUndoesAnySetupPrefix(plan: Plan, env: Env, ok: seq<bool>, home: System)
    requires SetupBatch(plan, env).Batch? && |ok| <= |SetupBatch(plan, env).cmds|
    ensures var b := SetupBatch(plan, env);
      var s := RunSome(b.cmds, ok, home);
      RunAll(TeardownBatch(b.ctx, plan.tun), s) == home <==>
        Clean(b.ctx, plan.tun, home) && (b.ctx.dnsMode == ResolvConfFile ==> !BackupLost(home, s))
  {
    var b := SetupBatch(plan, env);
    SetupIsCovered(plan, env);
    StartsBetween(b.ctx, plan.tun, home);
    SetupKeepsBetween(b.ctx, plan.tun, home, home, b.cmds, ok);
    ResolvAfterSetup(plan, env, ok, home);
    TeardownRestoresIff(b.ctx, plan.tun, home, RunSome(b.cmds, ok, home));
  }

  /** Tearing down twice is tearing down once, unless an iptables target was there more than once. */
  lemma TeardownIdempotentIff(ctx: RouteContext, tun: Tun, s: System)
    ensures var cmds := TeardownBatch(ctx, tun);
      RunAll(cmds, RunAll(cmds, s)) == RunAll(cmds, s) <==>
        forall c, r :: r in TargetFw(ctx, tun, c) ==> multiset(s.Fw(c))[r] <= 1
  {
    TeardownResult(ctx, tun, s);
    var e := AfterTeardown(ctx, tun, s);
    TeardownResult(ctx, tun, e);
    var f := AfterTeardown(ctx, tun, e);
    forall c ensures f.Fw(c) == e.Fw(c) <==> forall r :: r in TargetFw(ctx, tun, c) ==> multiset(s.Fw(c))[r] <= 1 {
      TargetsDistinct(ctx, tun, c);
      assert e.Fw(c) == RemoveEach(s.Fw(c), TargetFw(ctx, tun, c));
      assert f.Fw(c) == RemoveEach(e.Fw(c), TargetFw(ctx, tun, c));
      RemoveTwiceIff(s.Fw(c), TargetFw(ctx, tun, c));
    }
    assert f.Fw(Output4) == e.Fw(Output4) && f.Fw(Output6) == e.Fw(Output6) && f.Fw(NatOutput4) == e.Fw(NatOutput4)
      <==> forall c, r :: r in TargetFw(ctx, tun, c) ==> multiset(s.Fw(c))[r] <= 1;
    assert ctx.dnsMode != ResolvConfFile ==> e.links - {tun.interfaceName} == e.links;
  }

  /** A failing case of TeardownRestoresIff: what was there before setup is torn down too. */
  lemma OwnRuleIsTornDown(ctx: RouteContext, tun: Tun, home: System)
    requires TunRule(V4, tun) in home.rules
    ensures TunRule(V4, tun) !in RunAll(TeardownBatch(ctx, tun), home).rules
  {
    TeardownResult(ctx, tun, home);
  }

  /** A failing case of TeardownUndoesAnySetupPrefix: a file overwritten without a backup stays overwritten. */
  lemma UnbackedOverwriteStays(ctx: RouteContext, tun: Tun, server: string, home: System)
    requires home.backup.None? && home.resolvConf != Some(ResolvFor(server))
    ensures RunAll(TeardownBatch(ctx, tun), Effect(OverwriteResolvConf(server), home)).resolvConf
      == Some(ResolvFor(server)) != home.resolvConf
  {
    TeardownResult(ctx, tun, Effect(OverwriteResolvConf(server), home));
  }

  /** A failing case of TeardownIdempotentIff: each of two teardowns deletes one of two equal firewall rules. */
  lemma SecondTeardownDeletesAgain(ctx: RouteContext, tun: Tun, s: System)
    requires tun.blockQUIC && s.output4 == [DropQuic, DropQuic]
    ensures var once := RunAll(TeardownBatch(ctx, tun), s);
      once.output4 == [DropQuic] && RunAll(TeardownBatch(ctx, tun), once).output4 == []
  {
    TeardownResult(ctx, tun, s);
    var once := AfterTeardown(ctx, tun, s);
    TeardownResult(ctx, tun, once);
    assert [DropQuic][1..] == [] && s.output4[1..] == [DropQuic];
    assert RemoveEach(s.output4, [DropQuic]) == RemoveEach([DropQuic], []);
    assert RemoveEach(once.output4, [DropQuic]) == RemoveEach([], []);
  }

  lemma RemoveTwiceIff(rs: seq<FwRule>, targets: seq<FwRule>)
    requires Distinct(targets)
    ensures RemoveEach(RemoveEach(rs, targets), targets) == RemoveEach(rs, targets) <==>
      forall r :: r in targets ==> multiset(rs)[r] <= 1
  {
    var once := RemoveEach(rs, targets);
    RemoveEachCounts(rs, targets);
    RemoveEachCounts(once, targets);
    forall r | r in targets ensures multiset(targets)[r] == 1 { CountOfDistinct(targets, r); }
    if forall r :: r in targets ==> multiset(rs)[r] <= 1 {
      forall r | r in targets ensures r !in once { assert r !in multiset(once); }
      RemoveEachClears([], once, targets);
      assert [] + once == once;
    } else {
      var r :| r in targets && multiset(rs)[r] > 1;
      assert multiset(RemoveEach(once, targets))[r] < multiset(once)[r];
    }
  }

  lemma {:induction false} CountOfDistinct(rs: seq<FwRule>, r: FwRule)
    requires Distinct(rs)
    ensures multiset(rs)[r] == if r in rs then 1 else 0
  {
    if rs != [] {
      assert rs == [rs[0]] + rs[1..];
      assert rs[0] !in rs[1..];
      CountOfDistinct(rs[1..], r);
    }
  }

  // ------------------------------------------------------------------ the lines of a teardown

  ghost predicate TeardownLine(ctx: RouteContext, tun: Tun, c: Cmd) {
    match c
    case DelRule(r) => r in TargetRules(ctx, tun)
    case DelRoute(r) => r in TargetRoutes(tun)
    case DeleteFw(ch, r) => r in TargetFw(ctx, tun, ch)
    case RevertLink(d) => ctx.dnsMode != ResolvConfFile && d == tun.interfaceName
    case CopyBackupBack => ctx.dnsMode == ResolvConfFile
    case RemoveBackup => ctx.dnsMode == ResolvConfFile
    case FlushCaches => true
    case _ => false
  }

  /** The t-th line of a teardown, by the part it stands in. */
  lemma TeardownAt(ctx: RouteContext, tun: Tun, t: nat)
    requires t < |TeardownBatch(ctx, tun)|
    ensures var a := |DelAddressLines(ctx)|;
      var q := a + |DelQuicLines(tun)|;
      var d := q + |UndoDnsLines(ctx, tun)|;
      var n := d + |DelRedirectLines(ctx)|;
      n <= |TeardownBatch(ctx, tun)| && |TeardownBatch(ctx, tun)| - n == |DelTunLines(tun)| &&
      if t < a then TeardownBatch(ctx, tun)[t] == DelAddressLines(ctx)[t]
      else if t < q then TeardownBatch(ctx, tun)[t] == DelQuicLines(tun)[t - a]
      else if t < d then TeardownBatch(ctx, tun)[t] == UndoDnsLines(ctx, tun)[t - q]
      else if t < n then TeardownBatch(ctx, tun)[t] == DelRedirectLines(ctx)[t - d]
      else TeardownBatch(ctx, tun)[t] == DelTunLines(tun)[t - n]
  {
    hide DelAddressLines, DelQuicLines, UndoDnsLines, DelRedirectLines, DelTunLines;
  }

  lemma AddressLineAt(ctx: RouteContext, tun: Tun, i: nat)
    requires i < |DelAddressLines(ctx)|
    ensures DelAddressLines(ctx)[i].DelRule? && TeardownLine(ctx, tun, DelAddressLines(ctx)[i])
  {
    if i < |ctx.serverIPs| { assert DelAddressLines(ctx)[i].rule == ServerRule(ctx.serverIPs[i]); }
  }

  lemma TeardownLineAt(ctx: RouteContext, tun: Tun, t: nat)
    requires t < |TeardownBatch(ctx, tun)|
    ensures TeardownLine(ctx, tun, TeardownBatch(ctx, tun)[t])
    ensures TeardownBatch(ctx, tun)[t].RemoveBackup? ==> t > 0 && TeardownBatch(ctx, tun)[t - 1].CopyBackupBack?
  {
    hide TeardownBatch, DelAddressLines;
    TeardownAt(ctx, tun, t);
    if t < |DelAddressLines(ctx)| {
      AddressLineAt(ctx, tun, t);
    } else if TeardownBatch(ctx, tun)[t].RemoveBackup? {
      assert t == |DelAddressLines(ctx)| + |DelQuicLines(tun)| + 1;
      TeardownAt(ctx, tun, t - 1);
    }
  }

  ghost predicate CopiedJustBefore(cmds: seq<Cmd>, t: nat)
    requires t < |cmds|
  {
    cmds[t].RemoveBackup? ==> t > 0 && cmds[t - 1].CopyBackupBack?
  }

  /** Every teardown line is about the record, and the backup is removed only right after it was copied back. */
  lemma TeardownIsCovered(ctx: RouteContext, tun: Tun)
    ensures var cmds := TeardownBatch(ctx, tun);
      forall t: nat :: t < |cmds| ==> TeardownLine(ctx, tun, cmds[t]) && CopiedJustBefore(cmds, t)
  {
    hide TeardownBatch, TeardownLine;
    forall t: nat | t < |TeardownBatch(ctx, tun)|
      ensures TeardownLine(ctx, tun, TeardownBatch(ctx, tun)[t]) && CopiedJustBefore(TeardownBatch(ctx, tun), t)
    {
      TeardownLineAt(ctx, tun, t);
    }
  }

  /** A backup is never taken of an overwritten file: no backup line follows an overwriting one. */
  lemma BackupComesFirst(plan: Plan, env: Env)
    requires SetupBatch(plan, env).Batch?
    ensures var cmds := SetupBatch(plan, env).cmds;
      forall u, t :: 0 <= u < t < |cmds| && cmds[u].OverwriteResolvConf? ==> !cmds[t].BackUpResolvConf?
  {
    var b := SetupBatch(plan, env);
    var a, d, z := AddressLines(plan, env) + FirewallLines(plan, env), DnsLines(plan, b.ctx.dnsMode),
      TunLines(plan.tun);
    var cmds := a + d + z;
    assert b.cmds == cmds;
    forall u | 0 <= u < |a| ensures !cmds[u].OverwriteResolvConf? {
      assert cmds[u] == a[u];
    }
    forall u, t | 0 <= u < t < |cmds| && cmds[u].OverwriteResolvConf? ensures !cmds[t].BackUpResolvConf? {
      if t < |a| + |d| {
        assert cmds[u] == d[u - |a|] && cmds[t] == d[t - |a|];
      } else {
        assert cmds[t] == z[t - |a| - |d|];
      }
    }
  }

  // ------------------------------------------------------------------ building the batches

  /** setupRoutesLinux's command list, built line by line, with the record for `prepared`. */
  method BuildSetup(plan: Plan, env: Env) returns (b: Batch)
    ensures b == SetupBatch(plan, env)
  {
    if !env.hasIp { return Refused; }
    var ctx := RouteContext(plan.serverIPs, "", Untouched, plan.systemDNS,
                            if plan.systemDNS == "" then 0 else plan.dnsRedirectPort);
    var cmds: seq<Cmd> := [];
    for i := 0 to |ctx.serverIPs|
      invariant cmds == seq(i, k requires 0 <= k < i => AddRule(ServerRule(plan.serverIPs[k])))
    {
      cmds := cmds + [AddRule(ServerRule(ctx.serverIPs[i]))];
    }
    if env.sourceIP != "" {
      ctx := ctx.(sourceIP := env.sourceIP);
      cmds := cmds + [AddRule(SourceRule(ctx.sourceIP))];
    }
    assert cmds == AddressLines(plan, env);
    if plan.tun.blockQUIC && env.hasIptables {
      cmds := cmds + [EnsureFw(Output4, DropQuic)];
    }
    if plan.systemDNS != "" {
      if plan.systemDNS == LOOPBACK {
        ctx := ctx.(redirectPort := DNS_PROXY_PORT);
        if !env.hasIptables { return Refused; }
        cmds := cmds + [EnsureFw(NatOutput4, RedirectDns(Udp, ctx.redirectPort)),
          EnsureFw(NatOutput4, RedirectDns(Tcp, ctx.redirectPort))];
      }
      assert cmds == AddressLines(plan, env) + FirewallLines(plan, env);
      if env.hasResolvectl {
        ctx := ctx.(dnsMode := Resolvectl);
        cmds := cmds + [SetLinkServer(plan.tun.interfaceName, plan.systemDNS), SetLinkCatchAll(plan.tun.interfaceName),
          FlushCaches];
      } else {
        ctx := ctx.(dnsMode := ResolvConfFile);
        cmds := cmds + [BackUpResolvConf, OverwriteResolvConf(plan.systemDNS), FlushCaches];
      }
    }
    assert cmds == AddressLines(plan, env) + FirewallLines(plan, env) + DnsLines(plan, ctx.dnsMode);
    cmds := cmds + [Sysctl("all"), Sysctl(plan.tun.interfaceName),
      AddRule(MarkRule(V4, plan.tun)), AddRoute(TunRoute(V4, plan.tun)), AddRule(TunRule(V4, plan.tun))];
    return Batch(ctx, cmds);
  }

  /** teardownRoutesLinux's command list. */
  method BuildTeardown(ctx: RouteContext, tun: Tun) returns (cmds: seq<Cmd>)
    ensures cmds == TeardownBatch(ctx, tun)
  {
    cmds := [];
    for i := 0 to |ctx.serverIPs|
      invariant cmds == seq(i, k requires 0 <= k < i => DelRule(ServerRule(ctx.serverIPs[k])))
    {
      cmds := cmds + [DelRule(ServerRule(ctx.serverIPs[i]))];
    }
    if ctx.sourceIP != "" { cmds := cmds + [DelRule(SourceRule(ctx.sourceIP))]; }
    assert cmds == DelAddressLines(ctx);
    if tun.blockQUIC { cmds := cmds + [DeleteFw(Output4, DropQuic), DeleteFw(Output6, DropQuic)]; }
    assert cmds == DelAddressLines(ctx) + DelQuicLines(tun);
    if ctx.dnsMode == Resolvectl {
      cmds := cmds + [RevertLink(tun.interfaceName), FlushCaches];
    } else if ctx.dnsMode == ResolvConfFile {
      cmds := cmds + [CopyBackupBack, RemoveBackup, FlushCaches];
    } else {
      cmds := cmds + [RevertLink(tun.interfaceName), FlushCaches];
    }
    assert cmds == DelAddressLines(ctx) + DelQuicLines(tun) + UndoDnsLines(ctx, tun);
    if ctx.redirectPort > 0 {
      cmds := cmds + [DeleteFw(NatOutput4, RedirectDns(Udp, ctx.redirectPort)),
        DeleteFw(NatOutput4, RedirectDns(Tcp, ctx.redirectPort))];
    }
    cmds := cmds + [DelRule(MarkRule(V4, tun)), DelRule(MarkRule(V6, tun)), DelRule(TunRule(V4, tun)),
      DelRule(TunRule(V6, tun)),
      DelRoute(TunRoute(V4, tun)), DelRoute(TunRoute(V6, tun))];
  }
}
