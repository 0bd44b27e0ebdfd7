/** The networking controls 4.1, 4.2, 4.4 and 4.5, evaluated from the
    security groups and route tables of every region. */
module Network {
  import opened Results

  /** The texts the controls report. */
  const SshDescription := "Ensure no security groups allow ingress from 0.0.0.0/0 to port 22"
  const RdpDescription := "Ensure no security groups allow ingress from 0.0.0.0/0 to port 3389"
  const DefaultGroupDescription := "Ensure the default security group of every VPC restricts all traffic"
  const PeeringDescription := "Ensure routing tables for VPC peering are least access"

  // ---------------------------------------------------------------------
  // Security groups

  /** One entry of 'IpPermissions' or 'IpPermissionsEgress'. The port numbers
      are absent from the response for all-protocol rules; `ipRanges` holds
      the 'CidrIp' of each entry of 'IpRanges'. */
  datatype IpPermission = IpPermission(
    ipProtocol: string,
    fromPort: Option<int>,
    toPort: Option<int>,
    ipRanges: seq<string>)

  datatype SecurityGroup = SecurityGroup(
    groupId: string,
    ipPermissions: seq<IpPermission>,
    ipPermissionsEgress: seq<IpPermission>)

  /** The 'SecurityGroups' that `describe_security_groups` returns for one region. */
  datatype RegionGroups = RegionGroups(region: string, groups: seq<SecurityGroup>)

  /** Python's `str()` of an 'IpPermissions' list. Its exact text is Python's
      rendering of boto3's response, so it is a parameter of the model. */
  type Render = seq<IpPermission> -> string

  const WorldCidr := "0.0.0.0/0"

  /** The group's rules mention "0.0.0.0/0" somewhere in their text. */
  predicate OpenToWorld(render: Render, g: SecurityGroup)
  {
    Contains(render(g.ipPermissions), WorldCidr)
  }

  /** A rendering that writes every address range of every rule into its
      text, as `str()` of boto3's dictionaries does. */
  ghost predicate ShowsRanges(render: Render)
  {
    forall ps: seq<IpPermission>, k: int, c: string ::
      0 <= k < |ps| && c in ps[k].ipRanges ==> Contains(render(ps), c)
  }

  /** The ranges of a list of rules, each followed by a space: the least a
      rendering has to show. */
  function RangesText(ps: seq<IpPermission>): string
  {
    if ps == [] then "" else Spaced(ps[0].ipRanges) + RangesText(ps[1..])
  }

  function Spaced(cs: seq<string>): string
  {
    if cs == [] then "" else cs[0] + " " + Spaced(cs[1..])
  }

  lemma {:induction false} SpacedHas(cs: seq<string>, i: int) returns (a: string, b: string)
    requires 0 <= i < |cs|
    ensures Spaced(cs) == a + cs[i] + b
  {
    if i == 0 {
      a, b := "", " " + Spaced(cs[1..]);
    } else {
      var a', b' := SpacedHas(cs[1..], i - 1);
      a, b := cs[0] + " " + a', b';
    }
  }

  lemma {:induction false} RangesTextHas(ps: seq<IpPermission>, k: int, c: string) returns (a: string, b: string)
    requires 0 <= k < |ps| && c in ps[k].ipRanges
    ensures RangesText(ps) == a + c + b
  {
    if k == 0 {
      var i :| 0 <= i < |ps[0].ipRanges| && ps[0].ipRanges[i] == c;
      var a', b' := SpacedHas(ps[0].ipRanges, i);
      a, b := a', b' + RangesText(ps[1..]);
    } else {
      var a', b' := RangesTextHas(ps[1..], k - 1, c);
      a, b := Spaced(ps[0].ipRanges) + a', b';
    }
  }

  /** The ranges text is a rendering that shows every range. */
  lemma RangesTextShowsRanges()
    ensures ShowsRanges(RangesText)
  {
    forall ps: seq<IpPermission>, k: int, c: string | 0 <= k < |ps| && c in ps[k].ipRanges
      ensures Contains(RangesText(ps), c)
    {
      var a, b := RangesTextHas(ps, k, c);
      ContainsInfix(a, c, b);
    }
  }

  /** Reading 'FromPort' raises when it is absent, and so does reading
      'ToPort' once 'FromPort' <= port; the handler then looks at the
      protocol instead. */
  predicate PortLess(port: int, o: IpPermission)
  {
    o.fromPort.None? || (o.fromPort.value <= port && o.toPort.None?)
  }

  /** The offenders one rule of a world-open group adds for `port`. */
  function RuleOffenders(port: int, region: string, groupId: string, o: IpPermission): seq<string>
  {
    if PortLess(port, o) then
      (if o.ipProtocol == "-1" then [region + " : " + groupId] else [])
    else if o.fromPort.value <= port <= o.toPort.value then [groupId]
    else []
  }

  function GroupPortOffenders(port: int, render: Render, region: string, g: SecurityGroup): seq<string>
  {
    if OpenToWorld(render, g) then Gather(o => RuleOffenders(port, region, g.groupId, o), g.ipPermissions)
    else []
  }

  function RegionPortOffenders(port: int, render: Render, r: RegionGroups): seq<string>
  {
    Gather(g => GroupPortOffenders(port, render, r.region, g), r.groups)
  }

  function PortOffenders(port: int, render: Render, regions: seq<RegionGroups>): seq<string>
  {
    Gather(r => RegionPortOffenders(port, render, r), regions)
  }

  const SshReason := "Found Security Group with port 22 open to the world (0.0.0.0/0)"
  const RdpReason := "Found Security Group with port 3389 open to the world (0.0.0.0/0)"

  function SshResult(render: Render, regions: seq<RegionGroups>): ControlResult
  {
    Enumeration(PortOffenders(22, render, regions), SshReason, true,
                SshDescription, "4.1")
  }

  function RdpResult(render: Render, regions: seq<RegionGroups>): ControlResult
  {
    Enumeration(PortOffenders(3389, render, regions), RdpReason, true,
                RdpDescription, "4.2")
  }

  /** The inner loop over one group's rules. */
  method GroupOpenPort(port: int, render: Render, region: string, g: SecurityGroup) returns (found: seq<string>)
    ensures found == GroupPortOffenders(port, render, region, g)
  {
    found := [];
    if Contains(render(g.ipPermissions), WorldCidr) {
      var rules := g.ipPermissions;
      for k := 0 to |rules|
        invariant found == Gather(o => RuleOffenders(port, region, g.groupId, o), rules[..k])
      {
        var o := rules[k];
        if o.fromPort.None? || (o.fromPort.value <= port && o.toPort.None?) {
          if o.ipProtocol == "-1" {
            found := found + [region + " : " + g.groupId];
          }
        } else if o.fromPort.value <= port <= o.toPort.value {
          found := found + [g.groupId];
        }
        GatherStep(o => RuleOffenders(port, region, g.groupId, o), rules, k);
      }
      assert rules[..|rules|] == rules;
    }
  }

  /** The loop 4.1 and 4.2 share, over regions and their groups. */
  method OpenPortOffenders(port: int, render: Render, regions: seq<RegionGroups>) returns (offenders: seq<string>)
    ensures offenders == PortOffenders(port, render, regions)
  {
    offenders := [];
    for i := 0 to |regions|
      invariant offenders == PortOffenders(port, render, regions[..i])
    {
      var n := regions[i];
      ghost var before := offenders;
      for j := 0 to |n.groups|
        invariant offenders == before + Gather(g => GroupPortOffenders(port, render, n.region, g), n.groups[..j])
      {
        var found := GroupOpenPort(port, render, n.region, n.groups[j]);
        offenders := offenders + found;
        GatherStep(g => GroupPortOffenders(port, render, n.region, g), n.groups, j);
      }
      assert n.groups[..|n.groups|] == n.groups;
      GatherStep(r => RegionPortOffenders(port, render, r), regions, i);
    }
    assert regions[..|regions|] == regions;
  }

  method Control4_1(render: Render, regions: seq<RegionGroups>) returns (r: ControlResult)
    ensures r == SshResult(render, regions)
  {
    var offenders := OpenPortOffenders(22, render, regions);
    r := Enumeration(offenders, SshReason, true,
                     SshDescription, "4.1");
  }

  method Control4_2(render: Render, regions: seq<RegionGroups>) returns (r: ControlResult)
    ensures r == RdpResult(render, regions)
  {
    var offenders := OpenPortOffenders(3389, render, regions);
    r := Enumeration(offenders, RdpReason, true,
                     RdpDescription, "4.2");
  }

  /** What one rule of a world-open group contributes: its group id when its
      port range holds `port`, both ends included; "region : GroupId" when it
      has no port numbers to compare and covers every protocol; nothing
      otherwise. */
  lemma RuleVerdict(port: int, region: string, groupId: string, o: IpPermission)
    ensures o.fromPort.Some? && o.toPort.Some? && o.fromPort.value <= port <= o.toPort.value
        ==> RuleOffenders(port, region, groupId, o) == [groupId]
    ensures o.fromPort.Some? && o.toPort.Some? && !(o.fromPort.value <= port <= o.toPort.value)
        ==> RuleOffenders(port, region, groupId, o) == []
    ensures o.fromPort.Some? && o.fromPort.value > port ==> RuleOffenders(port, region, groupId, o) == []
    ensures o.fromPort.None? || (o.fromPort.value <= port && o.toPort.None?)
        ==> RuleOffenders(port, region, groupId, o) == (if o.ipProtocol == "-1" then [region + " : " + groupId] else [])
  {
  }

  /** An offender of 4.1 or 4.2 comes from one rule of one world-open group,
      and every rule of every world-open group is looked at; groups whose
      rules never mention "0.0.0.0/0" contribute nothing. */
  lemma PortOffendersMembers(port: int, render: Render, regions: seq<RegionGroups>, x: string)
    ensures x in PortOffenders(port, render, regions)
        <==> exists i, j, k :: 0 <= i < |regions| && 0 <= j < |regions[i].groups|
               && 0 <= k < |regions[i].groups[j].ipPermissions|
               && OpenToWorld(render, regions[i].groups[j])
               && x in RuleOffenders(port, regions[i].region, regions[i].groups[j].groupId,
                                     regions[i].groups[j].ipPermissions[k])
  {
    GatherMembers(r => RegionPortOffenders(port, render, r), regions, x);
    forall i | 0 <= i < |regions|
      ensures x in RegionPortOffenders(port, render, regions[i])
          <==> exists j, k :: 0 <= j < |regions[i].groups| && 0 <= k < |regions[i].groups[j].ipPermissions|
                 && OpenToWorld(render, regions[i].groups[j])
                 && x in RuleOffenders(port, regions[i].region, regions[i].groups[j].groupId,
                                       regions[i].groups[j].ipPermissions[k])
    {
      var n := regions[i];
      GatherMembers(g => GroupPortOffenders(port, render, n.region, g), n.groups, x);
      forall j | 0 <= j < |n.groups|
        ensures x in GroupPortOffenders(port, render, n.region, n.groups[j])
            <==> exists k :: 0 <= k < |n.groups[j].ipPermissions| && OpenToWorld(render, n.groups[j])
                   && x in RuleOffenders(port, n.region, n.groups[j].groupId, n.groups[j].ipPermissions[k])
      {
        var g := n.groups[j];
        GatherMembers(o => RuleOffenders(port, n.region, g.groupId, o), g.ipPermissions, x);
      }
    }
  }

  /** Under a rendering that shows the ranges, a rule open to 0.0.0.0/0 whose
      port range holds `port` gets its group listed. */
  lemma WorldRuleListed(port: int, render: Render, regions: seq<RegionGroups>, i: int, j: int, k: int)
    requires ShowsRanges(render)
    requires 0 <= i < |regions| && 0 <= j < |regions[i].groups| && 0 <= k < |regions[i].groups[j].ipPermissions|
    requires WorldCidr in regions[i].groups[j].ipPermissions[k].ipRanges
    requires regions[i].groups[j].ipPermissions[k].fromPort.Some? && regions[i].groups[j].ipPermissions[k].toPort.Some?
    requires regions[i].groups[j].ipPermissions[k].fromPort.value <= port <= regions[i].groups[j].ipPermissions[k].toPort.value
    ensures regions[i].groups[j].groupId in PortOffenders(port, render, regions)
  {
    var g := regions[i].groups[j];
    assert OpenToWorld(render, g);
    assert g.groupId in RuleOffenders(port, regions[i].region, g.groupId, g.ipPermissions[k]);
    PortOffendersMembers(port, render, regions, g.groupId);
  }

  /** Two groups that differ only in their address ranges: port 22 open to
      0.0.0.0/0 in sg-a and to 10.0.0.0/8 in sg-b. */
  const WorldSsh := IpPermission("tcp", Some(22), Some(22), ["0.0.0.0/0"])
  const PrivateSsh := IpPermission("tcp", Some(22), Some(22), ["10.0.0.0/8"])
  const WorldGroup := SecurityGroup("sg-a", [WorldSsh], [])
  const PrivateGroup := SecurityGroup("sg-b", [PrivateSsh], [])

  lemma WorldGroupOpen()
    ensures OpenToWorld(RangesText, WorldGroup)
  {
    assert RangesText([WorldSsh]) == WorldCidr + " ";
    ContainsPrefix(WorldCidr, " ");
  }

  lemma PrivateGroupClosed()
    ensures !OpenToWorld(RangesText, PrivateGroup)
  {
    var t := RangesText([PrivateSsh]);
    assert t == "10.0.0.0/8 ";
    ContainsIsSubstring(t, WorldCidr);
    assert !OccursAt(t, WorldCidr, 0) by { assert t[0..9][0] != WorldCidr[0]; }
    assert !OccursAt(t, WorldCidr, 1) by { assert t[1..10][8] != WorldCidr[8]; }
    assert !OccursAt(t, WorldCidr, 2) by { assert t[2..11][0] != WorldCidr[0]; }
    assert !exists k: nat :: OccursAt(t, WorldCidr, k);
  }

  /** 4.1 lists sg-a alone: the rendering tells the two groups apart. */
  lemma OnlyWorldGroupListed()
    ensures PortOffenders(22, RangesText, [RegionGroups("r", [WorldGroup, PrivateGroup])]) == ["sg-a"]
  {
    WorldGroupOpen();
    PrivateGroupClosed();
    GatherSingle(o => RuleOffenders(22, "r", "sg-a", o), WorldSsh);
    var fg := g => GroupPortOffenders(22, RangesText, "r", g);
    assert fg(WorldGroup) == ["sg-a"];
    assert fg(PrivateGroup) == [];
    assert [WorldGroup, PrivateGroup] == [WorldGroup] + [PrivateGroup];
    GatherConcat(fg, [WorldGroup], [PrivateGroup]);
    GatherSingle(fg, WorldGroup);
    GatherSingle(fg, PrivateGroup);
    GatherSingle(r => RegionPortOffenders(22, RangesText, r), RegionGroups("r", [WorldGroup, PrivateGroup]));
  }

  // ---------------------------------------------------------------------
  // 4.4 Ensure the default security group of every VPC restricts all traffic

  function DefaultGroupOffenders(region: string, g: SecurityGroup): seq<string>
  {
    if |g.ipPermissions| + |g.ipPermissionsEgress| != 0 then [region + " : " + g.groupId] else []
  }

  function RegionDefaultOffenders(r: RegionGroups): seq<string>
  {
    Gather(g => DefaultGroupOffenders(r.region, g), r.groups)
  }

  const DefaultGroupReason := "Default security groups with ingress or egress rules discovered"

  /** `defaults` holds, per region, the groups named "default". */
  function DefaultGroupsResult(defaults: seq<RegionGroups>): ControlResult
  {
    Enumeration(Gather(RegionDefaultOffenders, defaults), DefaultGroupReason, true,
                DefaultGroupDescription, "4.4")
  }

  method Control4_4(defaults: seq<RegionGroups>) returns (r: ControlResult)
    ensures r == DefaultGroupsResult(defaults)
  {
    var offenders := [];
    for i := 0 to |defaults|
      invariant offenders == Gather(RegionDefaultOffenders, defaults[..i])
    {
      var n := defaults[i];
      ghost var before := offenders;
      for j := 0 to |n.groups|
        invariant offenders == before + Gather(g => DefaultGroupOffenders(n.region, g), n.groups[..j])
      {
        var m := n.groups[j];
        if !(|m.ipPermissions| + |m.ipPermissionsEgress| == 0) {
          offenders := offenders + [n.region + " : " + m.groupId];
        }
        GatherStep(g => DefaultGroupOffenders(n.region, g), n.groups, j);
      }
      assert n.groups[..|n.groups|] == n.groups;
      GatherStep(RegionDefaultOffenders, defaults, i);
    }
    assert defaults[..|defaults|] == defaults;
    r := Enumeration(offenders, DefaultGroupReason, true,
                     DefaultGroupDescription, "4.4");
  }

  /** 4.4 passes exactly when no default group has an ingress or an egress
      rule; each one that has lists "region : GroupId". */
  lemma DefaultGroupsMeaning(defaults: seq<RegionGroups>)
    ensures DefaultGroupsResult(defaults).result == Bool(true)
        <==> forall i, j :: 0 <= i < |defaults| && 0 <= j < |defaults[i].groups|
               ==> defaults[i].groups[j].ipPermissions == [] && defaults[i].groups[j].ipPermissionsEgress == []
    ensures forall i, j :: 0 <= i < |defaults| && 0 <= j < |defaults[i].groups|
               && (defaults[i].groups[j].ipPermissions != [] || defaults[i].groups[j].ipPermissionsEgress != [])
               ==> defaults[i].region + " : " + defaults[i].groups[j].groupId in DefaultGroupsResult(defaults).offenders
  {
    GatherEmpty(RegionDefaultOffenders, defaults);
    forall i | 0 <= i < |defaults|
      ensures RegionDefaultOffenders(defaults[i]) == []
          <==> forall j :: 0 <= j < |defaults[i].groups|
                 ==> defaults[i].groups[j].ipPermissions == [] && defaults[i].groups[j].ipPermissionsEgress == []
    {
      GatherEmpty(g => DefaultGroupOffenders(defaults[i].region, g), defaults[i].groups);
    }
    forall i, j | 0 <= i < |defaults| && 0 <= j < |defaults[i].groups|
        && (defaults[i].groups[j].ipPermissions != [] || defaults[i].groups[j].ipPermissionsEgress != [])
      ensures defaults[i].region + " : " + defaults[i].groups[j].groupId in DefaultGroupsResult(defaults).offenders
    {
      var x := defaults[i].region + " : " + defaults[i].groups[j].groupId;
      GatherMembers(g => DefaultGroupOffenders(defaults[i].region, g), defaults[i].groups, x);
      GatherMembers(RegionDefaultOffenders, defaults, x);
    }
  }

  /** An offender of 4.4 is "region : GroupId" of a default group with an
      ingress or an egress rule, and every such group is listed. */
  lemma DefaultGroupsOffendersMembers(defaults: seq<RegionGroups>, x: string)
    ensures x in DefaultGroupsResult(defaults).offenders
        <==> exists i, j :: 0 <= i < |defaults| && 0 <= j < |defaults[i].groups|
               && (defaults[i].groups[j].ipPermissions != [] || defaults[i].groups[j].ipPermissionsEgress != [])
               && x == defaults[i].region + " : " + defaults[i].groups[j].groupId
  {
    GatherMembers(RegionDefaultOffenders, defaults, x);
    forall i | 0 <= i < |defaults|
      ensures x in RegionDefaultOffenders(defaults[i])
          <==> exists j :: 0 <= j < |defaults[i].groups|
                 && (defaults[i].groups[j].ipPermissions != [] || defaults[i].groups[j].ipPermissionsEgress != [])
                 && x == defaults[i].region + " : " + defaults[i].groups[j].groupId
    {
      GatherMembers(g => DefaultGroupOffenders(defaults[i].region, g), defaults[i].groups, x);
    }
  }

  // ---------------------------------------------------------------------
  // 4.5 Ensure routing tables for VPC peering are "least access"

  /** One entry of 'Routes'; either entry may be absent from the response. */
  datatype Route = Route(vpcPeeringConnectionId: Option<string>, destinationCidrBlock: Option<string>)

  datatype RouteTable = RouteTable(routeTableId: string, routes: seq<Route>)

  datatype RegionRouteTables = RegionRouteTables(region: string, routeTables: seq<RouteTable>)

  /** The characters Python 2 strips around an integer: space, tab, line feed,
      vertical tab, form feed, carriage return. */
  predicate IsSpace(c: char)
  {
    c == ' ' || c == '\t' || c == '\n' || c == '\r' || c as int == 11 || c as int == 12
  }

  function TrimLeft(s: string): (r: string)
    ensures |r| <= |s| && r == s[|s| - |r|..]
    ensures r == [] || !IsSpace(r[0])
    ensures forall i :: 0 <= i < |s| - |r| ==> IsSpace(s[i])
  {
    if s != [] && IsSpace(s[0]) then TrimLeft(s[1..]) else s
  }

  function TrimRight(s: string): (r: string)
    ensures |r| <= |s| && r == s[..|r|]
    ensures r == [] || !IsSpace(r[|r| - 1])
    ensures forall i :: |r| <= i < |s| ==> IsSpace(s[i])
  {
    if s != [] && IsSpace(s[|s| - 1]) then TrimRight(s[..|s| - 1]) else s
  }

  /** The value of a decimal numeral. */
  function DigitsValue(s: string): nat
    requires AllDigits(s)
  {
    if s == [] then 0
    else
      assert IsDigit(s[|s| - 1]);
      DigitsValue(s[..|s| - 1]) * 10 + (s[|s| - 1] as int - '0' as int)
  }

  /** Python 2's `int()` on a text: a decimal numeral with an optional sign,
      surrounded by optional white space; `None` where `int()` raises. */
  function ParseInt(s: string): (r: Option<int>)
    ensures r.Some? ==> exists k :: 0 <= k < |s| && IsDigit(s[k])
  {
    var t := TrimRight(TrimLeft(s));
    if |t| > 1 && (t[0] == '-' || t[0] == '+') && AllDigits(t[1..]) then
      assert IsDigit(t[1]);
      var magnitude: int := DigitsValue(t[1..]);
      Some(if t[0] == '-' then -magnitude else magnitude)
    else if |t| > 0 && AllDigits(t) then
      assert IsDigit(t[0]);
      Some(DigitsValue(t))
    else None
  }

  /** `str(n)` for a natural number. */
  function Decimal(n: nat): (r: string)
    ensures |r| > 0 && AllDigits(r) && DigitsValue(r) == n
  {
    var d := ['0' + (n % 10) as char];
    if n < 10 then d
    else
      var r := Decimal(n / 10) + d;
      assert r[..|r| - 1] == Decimal(n / 10);
      r
  }

  /** `int()` reads back what `str()` writes, negative numbers included. */
  lemma ParseDecimal(n: int)
    ensures ParseInt(if n < 0 then "-" + Decimal(-n) else Decimal(n)) == Some(n)
  {
    var s := if n < 0 then "-" + Decimal(-n) else Decimal(n);
    assert TrimLeft(s) == s by { assert !IsSpace(s[0]); }
    assert TrimRight(s) == s by { assert IsDigit(s[|s| - 1]); }
    if n < 0 {
      assert s[1..] == Decimal(-n);
    }
  }

  /** `s.split("/", 1)[1]`: the text after the first "/"; `None` where
      indexing the split raises because `s` has no "/". */
  function AfterSlash(s: string): (r: Option<string>)
    ensures r.Some? <==> '/' in s
    ensures r.Some? ==> |r.value| < |s| && r.value == s[|s| - |r.value|..]
                        && s[|s| - |r.value| - 1] == '/' && '/' !in s[..|s| - |r.value| - 1]
  {
    if s == [] then None
    else if s[0] == '/' then
      assert s[..0] == [];
      Some(s[1..])
    else
      var r := AfterSlash(s[1..]);
      assert '/' in s <==> '/' in s[1..] by {
        assert s == [s[0]] + s[1..];
      }
      if r.Some? then
        var k := |s| - |r.value| - 1;
        assert s[..k] == [s[0]] + s[1..][..k - 1];
        r
      else r
  }

  /** The prefix length of a CIDR block, as line 1806 reads it. */
  function PrefixLength(cidr: string): Option<int>
  {
    match AfterSlash(cidr)
    case None => None
    case Some(bits) => ParseInt(bits)
  }

  /** A route to a peering connection whose destination is wider than /24.
      An absent or empty peering id, an absent destination, a destination
      without "/" and a prefix `int()` rejects all end in `except: pass`. */
  predicate LargePeerRoute(o: Route)
  {
    && o.vpcPeeringConnectionId.Some? && o.vpcPeeringConnectionId.value != ""
    && o.destinationCidrBlock.Some?
    && PrefixLength(o.destinationCidrBlock.value).Some?
    && PrefixLength(o.destinationCidrBlock.value).value < 24
  }

  function RouteOffenders(region: string, tableId: string, o: Route): seq<string>
  {
    if LargePeerRoute(o) then [region + " : " + tableId] else []
  }

  function TableOffenders(region: string, m: RouteTable): seq<string>
  {
    Gather(o => RouteOffenders(region, m.routeTableId, o), m.routes)
  }

  function RegionRouteOffenders(r: RegionRouteTables): seq<string>
  {
    Gather(m => TableOffenders(r.region, m), r.routeTables)
  }

  const PeeringReason := "Large CIDR block routed to peer discovered, please investigate"

  /** 4.5 (not scored). The control is defined twice with the same body; the
      second definition is the one the handler calls, and this is both. */
  function PeeringResult(tables: seq<RegionRouteTables>): ControlResult
  {
    Enumeration(Gather(RegionRouteOffenders, tables), PeeringReason, false,
                PeeringDescription, "4.5")
  }

  /** The body of the `try` at lines 1804-1811, for one route. */
  method CheckRoute(o: Route) returns (large: bool)
    ensures large == LargePeerRoute(o)
  {
    large := false;
    if o.vpcPeeringConnectionId.Some? && o.vpcPeeringConnectionId.value != "" {
      if o.destinationCidrBlock.Some? {
        var bits := AfterSlash(o.destinationCidrBlock.value);
        if bits.Some? {
          var prefix := ParseInt(bits.value);
          large := prefix.Some? && prefix.value < 24;
        }
      }
    }
  }

  /** The inner loop over one route table's routes. */
  method LargePeerRoutes(region: string, m: RouteTable) returns (found: seq<string>)
    ensures found == TableOffenders(region, m)
  {
    found := [];
    for k := 0 to |m.routes|
      invariant found == Gather(o => RouteOffenders(region, m.routeTableId, o), m.routes[..k])
    {
      var large := CheckRoute(m.routes[k]);
      if large {
        found := found + [region + " : " + m.routeTableId];
      }
      GatherStep(o => RouteOffenders(region, m.routeTableId, o), m.routes, k);
    }
    assert m.routes[..|m.routes|] == m.routes;
  }

  /** The loop over one region's route tables. */
  method RegionLargePeerRoutes(n: RegionRouteTables) returns (found: seq<string>)
    ensures found == RegionRouteOffenders(n)
  {
    found := [];
    for j := 0 to |n.routeTables|
      invariant found == Gather(m => TableOffenders(n.region, m), n.routeTables[..j])
    {
      var more := LargePeerRoutes(n.region, n.routeTables[j]);
      found := found + more;
      GatherStep(m => TableOffenders(n.region, m), n.routeTables, j);
    }
    assert n.routeTables[..|n.routeTables|] == n.routeTables;
  }

  method Control4_5(tables: seq<RegionRouteTables>) returns (r: ControlResult)
    ensures r == PeeringResult(tables)
  {
    var offenders := [];
    for i := 0 to |tables|
      invariant offenders == Gather(RegionRouteOffenders, tables[..i])
    {
      var found := RegionLargePeerRoutes(tables[i]);
      offenders := offenders + found;
      GatherStep(RegionRouteOffenders, tables, i);
    }
    assert tables[..|tables|] == tables;
    r := Enumeration(offenders, PeeringReason, false,
                     PeeringDescription, "4.5");
  }

  lemma {:induction false} AfterSlashOf(address: string, rest: string)
    requires '/' !in address
    ensures AfterSlash(address + "/" + rest) == Some(rest)
    decreases |address|
  {
    if address != [] {
      assert (address + "/" + rest)[1..] == address[1..] + "/" + rest;
      AfterSlashOf(address[1..], rest);
    }
  }

  /** For a peering route to "address/n", with no "/" in the address, the
      route is flagged exactly when n < 24: a /24 or narrower passes. */
  lemma PeerRoutePrefix(peering: string, address: string, n: nat)
    requires peering != "" && '/' !in address
    ensures LargePeerRoute(Route(Some(peering), Some(address + "/" + Decimal(n)))) <==> n < 24
  {
    AfterSlashOf(address, Decimal(n));
    ParseDecimal(n);
  }

  /** A route without a peering connection is never an offender of 4.5. */
  lemma NoPeeringNoOffender(region: string, tableId: string, o: Route)
    requires o.vpcPeeringConnectionId.None? || o.vpcPeeringConnectionId == Some("")
    ensures RouteOffenders(region, tableId, o) == []
  {
  }

  /** An offender of 4.5 names the region and table of one large peering route. */
  lemma PeeringOffendersMembers(tables: seq<RegionRouteTables>, x: string)
    ensures x in PeeringResult(tables).offenders
        <==> exists i, j, k :: 0 <= i < |tables| && 0 <= j < |tables[i].routeTables|
               && 0 <= k < |tables[i].routeTables[j].routes|
               && LargePeerRoute(tables[i].routeTables[j].routes[k])
               && x == tables[i].region + " : " + tables[i].routeTables[j].routeTableId
  {
    GatherMembers(RegionRouteOffenders, tables, x);
    forall i | 0 <= i < |tables|
      ensures x in RegionRouteOffenders(tables[i])
          <==> exists j, k :: 0 <= j < |tables[i].routeTables| && 0 <= k < |tables[i].routeTables[j].routes|
                 && LargePeerRoute(tables[i].routeTables[j].routes[k])
                 && x == tables[i].region + " : " + tables[i].routeTables[j].routeTableId
    {
      var n := tables[i];
      GatherMembers(m => TableOffenders(n.region, m), n.routeTables, x);
      forall j | 0 <= j < |n.routeTables|
        ensures x in TableOffenders(n.region, n.routeTables[j])
            <==> exists k :: 0 <= k < |n.routeTables[j].routes| && LargePeerRoute(n.routeTables[j].routes[k])
                   && x == n.region + " : " + n.routeTables[j].routeTableId
      {
        var m := n.routeTables[j];
        GatherMembers(o => RouteOffenders(n.region, m.routeTableId, o), m.routes, x);
      }
    }
  }
}
