/**
 * The request-building layer of the VyOS HTTP client: each public operation
 * validates its arguments and either refuses before anything is sent or
 * produces the endpoint and the action(s) to post to it.
 */
module Vyos {
  import opened Wrappers
  import opened Decimal
  import opened Addresses

  /** Go's `int` on a 64-bit platform. */
  newtype int64 = x: int | -0x8000_0000_0000_0000 <= x < 0x8000_0000_0000_0000

  const ENDPOINT_CONFIGURE: string := "configure"
  const ENDPOINT_CONF_FILE: string := "config-file"
  const ENDPOINT_SHOW_CONFIGURATION: string := "retrieve"

  const ACTION_SET: string := "set"
  const ACTION_DELETE: string := "delete"
  const ACTION_SHOW_CONFIGURATION: string := "showConfig"
  const ACTION_SAVE: string := "save"

  const VERSION_IPV4: int64 := 4
  const VERSION_IPV6: int64 := 6

  /** The MTU that SetAddress always writes. */
  const INTERFACE_MTU: string := "1450"

  /**
   * One configuration action. A `None` path is Go's nil slice (marshalled as
   * `null`), which is not the same as the empty path `Some([])`.
   */
  datatype Action = Action(op: string, path: Option<seq<string>>)

  /** A single action (`executeAction`) or an ordered batch (`executeBatchAction`). */
  datatype Payload = Single(action: Action) | Batch(actions: seq<Action>)

  /** What is handed to the transport: the endpoint and the JSON payload's content. */
  datatype Request = Request(endpoint: string, payload: Payload)

  /** The reasons an operation refuses its arguments before sending anything. */
  datatype Refusal =
    | InvalidCidr
    | InvalidSrcIp(srcIp: string)
    | InvalidDstIp(dstIp: string)
    | InvalidTranslationIp(translationIp: string)
    | FamilyMismatch
    | InvalidDestNet(destNet: string)
    | InvalidNextHop(nextHop: string)

  /** The argument a refusal quotes in its message ("" when it quotes none). */
  function Subject(r: Refusal): string {
    match r
    case InvalidSrcIp(s) => s
    case InvalidDstIp(s) => s
    case InvalidTranslationIp(s) => s
    case InvalidDestNet(s) => s
    case InvalidNextHop(s) => s
    case _ => ""
  }

  /** The error text the client returns for a refusal. */
  function Message(r: Refusal): (m: string)
    ensures |Subject(r)| < |m| && m[|m| - |Subject(r)|..] == Subject(r)
  {
    match r
    case InvalidCidr => "invalid address, address ust be in CIDR format, e.g. 192.168.1.1/24"
    case InvalidSrcIp(s) => "invalid srcIps " + s
    case InvalidDstIp(s) => "invalid dstIP " + s
    case InvalidTranslationIp(s) => "invalid translationIp " + s
    case FamilyMismatch => "ip类型不一致"
    case InvalidDestNet(s) => "invalid destNet " + s
    case InvalidNextHop(s) => "invalid nextHop " + s
  }

  /** The configuration subtree of one ethernet interface. */
  function InterfacePath(interfaceName: string): seq<string> {
    ["interfaces", "ethernet", interfaceName]
  }

  /**
   * SetAddress: always sets the interface MTU; a non-empty address must parse
   * as CIDR and is then set as a second action of the same batch.
   */
  function SetAddress(p: Parsers, interfaceName: string, address: string): (r: Result<Request, Refusal>)
    ensures r.Failure? <==> |address| != 0 && p.parseCIDR(address).None?
    ensures r.Failure? ==> r.error == InvalidCidr
    ensures r.Success? ==>
      && r.value.endpoint == ENDPOINT_CONFIGURE
      && r.value.payload.Batch?
      && var actions := r.value.payload.actions;
      && |actions| == (if |address| == 0 then 1 else 2)
      && actions[0] == Action(ACTION_SET, Some(["interfaces", "ethernet", interfaceName, "mtu", "1450"]))
      && (|address| != 0 ==>
            actions[1] == Action(ACTION_SET, Some(["interfaces", "ethernet", interfaceName, "address", address])))
  {
    var mtuAction := Action(ACTION_SET, Some(InterfacePath(interfaceName) + ["mtu", INTERFACE_MTU]));
    assert mtuAction.path.value == ["interfaces", "ethernet", interfaceName, "mtu", "1450"];
    var actions := [mtuAction];
    if |address| != 0 then
      if p.parseCIDR(address).None? then Failure(InvalidCidr)
      else
        var addressAction := Action(ACTION_SET, Some(InterfacePath(interfaceName) + ["address", address]));
        assert addressAction.path.value == ["interfaces", "ethernet", interfaceName, "address", address];
        Success(Request(ENDPOINT_CONFIGURE, Batch(actions + [addressAction])))
    else
      Success(Request(ENDPOINT_CONFIGURE, Batch(actions)))
  }

  /**
   * DeleteAddress: deletes every address of the interface, or only the given
   * one, which must then parse as CIDR.
   */
  function DeleteAddress(p: Parsers, interfaceName: string, address: string): (r: Result<Request, Refusal>)
    ensures r.Failure? <==> |address| != 0 && p.parseCIDR(address).None?
    ensures r.Failure? ==> r.error == InvalidCidr
    ensures r.Success? ==>
      && r.value.endpoint == ENDPOINT_CONFIGURE
      && r.value.payload.Single?
      && r.value.payload.action.op == ACTION_DELETE
      && r.value.payload.action.path.Some?
      && var path := r.value.payload.action.path.value;
      && |path| == (if |address| == 0 then 4 else 5)
      && path[..4] == ["interfaces", "ethernet", interfaceName, "address"]
      && (|address| != 0 ==> path[4] == address)
  {
    var action := Action(ACTION_DELETE, Some(InterfacePath(interfaceName) + ["address"]));
    if |address| != 0 then
      if p.parseCIDR(address).None? then Failure(InvalidCidr)
      else
        var action := action.(path := Some(action.path.value + [address]));
        Success(Request(ENDPOINT_CONFIGURE, Single(action)))
    else
      Success(Request(ENDPOINT_CONFIGURE, Single(action)))
  }

  /** DeleteInterface: removes the interface's whole configuration subtree; never refused. */
  function DeleteInterface(interfaceName: string): (q: Request)
    ensures q.endpoint == ENDPOINT_CONFIGURE
    ensures q.payload == Single(Action(ACTION_DELETE, Some(["interfaces", "ethernet", interfaceName])))
  {
    Request(ENDPOINT_CONFIGURE, Single(Action(ACTION_DELETE, Some(InterfacePath(interfaceName)))))
  }

  /** SaveConfig: a single `save` action with a nil path, sent to the config-file endpoint. */
  function SaveConfig(): (q: Request)
    ensures q.endpoint == "config-file"
    ensures q.payload.Single? && q.payload.action.op == "save" && q.payload.action.path.None?
  {
    Request(ENDPOINT_CONF_FILE, Single(Action(ACTION_SAVE, None)))
  }

  /** The two NAT rule tables. */
  datatype NatKind = Source | Destination

  /** The table's name in the configuration tree. */
  function NatTable(kind: NatKind): string {
    match kind
    case Source => "source"
    case Destination => "destination"
  }

  /** The interface attribute of a rule: traffic leaving (SNAT) or entering (DNAT). */
  function NatInterface(kind: NatKind): string {
    match kind
    case Source => "outbound-interface"
    case Destination => "inbound-interface"
  }

  /** The root of one NAT rule's subtree: `nat <table> rule <ruleId>`. */
  function RulePath(kind: NatKind, ruleId: int64): (path: seq<string>)
    ensures |path| == 4 && path[..3] == ["nat", NatTable(kind), "rule"]
    ensures IsCanonicalNumeral(path[3]) && NumeralValue(path[3]) == ruleId as int
  {
    FormatIntRoundTrip(ruleId as int);
    ["nat", NatTable(kind), "rule", FormatInt(ruleId as int)]
  }

  /** The segments of a present path, and the empty sequence for a nil one. */
  function Segments(a: Action): seq<string> {
    if a.path.Some? then a.path.value else []
  }

  /**
   * The batch that creates a NAT rule: three `set` actions under the rule's
   * subtree, for the interface, the matched address and the translation
   * address, each argument verbatim as the last segment.
   */
  predicate NatRuleBatch(kind: NatKind, ruleId: int64, interfaceName: string, matchIp: string,
                         translationIp: string, actions: seq<Action>)
  {
    && |actions| == 3
    && (forall k | 0 <= k < 3 ::
          actions[k].op == ACTION_SET && actions[k].path.Some? && RulePath(kind, ruleId) <= actions[k].path.value)
    && Segments(actions[0]) == RulePath(kind, ruleId) + [NatInterface(kind), interfaceName]
    && Segments(actions[1]) == RulePath(kind, ruleId) + [NatTable(kind), "address", matchIp]
    && Segments(actions[2]) == RulePath(kind, ruleId) + ["translation", "address", translationIp]
  }

  /** Both addresses parse and belong to the same family. */
  predicate NatAddressesAgree(p: Parsers, matchIp: string, translationIp: string) {
    && p.parseIP(matchIp).Some?
    && p.parseIP(translationIp).Some?
    && SameFamily(p.parseIP(matchIp).value, p.parseIP(translationIp).value)
  }

  /** The batch AddSnat and AddDnat send once their addresses are accepted. */
  function NatBatch(kind: NatKind, ruleId: int64, matchIp: string, translationIp: string,
                    interfaceName: string): (r: Request)
  {
    var rule := RulePath(kind, ruleId);
    Request(ENDPOINT_CONFIGURE, Batch([
      Action(ACTION_SET, Some(rule + [NatInterface(kind), interfaceName])),
      Action(ACTION_SET, Some(rule + [NatTable(kind), "address", matchIp])),
      Action(ACTION_SET, Some(rule + ["translation", "address", translationIp]))
    ]))
  }

  /** Whether exactly one of two parsed addresses is IPv4, written as the client tests it. */
  predicate OneIsV4(a: Ip, b: Ip) {
    (a.isV4 && !b.isV4) || (!a.isV4 && b.isV4)
  }

  /**
   * AddSnat: both addresses must parse, the source first, then the
   * translation address, and they must be of one family.
   */
  function AddSnat(p: Parsers, ruleId: int64, srcIp: string, translationIp: string,
                   interfaceName: string): (r: Result<Request, Refusal>)
    ensures r.Success? <==> NatAddressesAgree(p, srcIp, translationIp)
    ensures p.parseIP(srcIp).None? ==> r == Failure(InvalidSrcIp(srcIp))
    ensures p.parseIP(srcIp).Some? && p.parseIP(translationIp).None? ==>
              r == Failure(InvalidTranslationIp(translationIp))
    ensures p.parseIP(srcIp).Some? && p.parseIP(translationIp).Some? && r.Failure? ==>
              r.error == FamilyMismatch
    ensures r.Success? ==>
      && r.value.endpoint == ENDPOINT_CONFIGURE
      && r.value.payload.Batch?
      && NatRuleBatch(Source, ruleId, interfaceName, srcIp, translationIp, r.value.payload.actions)
  {
    var srcIpInfo := p.parseIP(srcIp);
    if srcIpInfo.None? then Failure(InvalidSrcIp(srcIp))
    else
      var translationIpInfo := p.parseIP(translationIp);
      if translationIpInfo.None? then Failure(InvalidTranslationIp(translationIp))
      else if OneIsV4(srcIpInfo.value, translationIpInfo.value) then Failure(FamilyMismatch)
      else Success(NatBatch(Source, ruleId, srcIp, translationIp, interfaceName))
  }

  /** DeleteSnat: one `delete` of the rule's whole subtree; never refused. */
  function DeleteSnat(ruleId: int64): (q: Request)
    ensures q.endpoint == ENDPOINT_CONFIGURE
    ensures q.payload.Single? && q.payload.action.op == ACTION_DELETE
    ensures q.payload.action.path == Some(["nat", "source", "rule", FormatInt(ruleId as int)])
  {
    Request(ENDPOINT_CONFIGURE, Single(Action(ACTION_DELETE, Some(RulePath(Source, ruleId)))))
  }

  /**
   * AddDnat: both addresses must parse, the destination first, then the
   * translation address, and they must be of one family.
   */
  function AddDnat(p: Parsers, ruleId: int64, dstIp: string, translationIp: string,
                   interfaceName: string): (r: Result<Request, Refusal>)
    ensures r.Success? <==> NatAddressesAgree(p, dstIp, translationIp)
    ensures p.parseIP(dstIp).None? ==> r == Failure(InvalidDstIp(dstIp))
    ensures p.parseIP(dstIp).Some? && p.parseIP(translationIp).None? ==>
              r == Failure(InvalidTranslationIp(translationIp))
    ensures p.parseIP(dstIp).Some? && p.parseIP(translationIp).Some? && r.Failure? ==>
              r.error == FamilyMismatch
    ensures r.Success? ==>
      && r.value.endpoint == ENDPOINT_CONFIGURE
      && r.value.payload.Batch?
      && NatRuleBatch(Destination, ruleId, interfaceName, dstIp, translationIp, r.value.payload.actions)
  {
    var dstIpInfo := p.parseIP(dstIp);
    if dstIpInfo.None? then Failure(InvalidDstIp(dstIp))
    else
      var translationIpInfo := p.parseIP(translationIp);
      if translationIpInfo.None? then Failure(InvalidTranslationIp(translationIp))
      else if OneIsV4(dstIpInfo.value, translationIpInfo.value) then Failure(FamilyMismatch)
      else Success(NatBatch(Destination, ruleId, dstIp, translationIp, interfaceName))
  }

  /** DeleteDnat: one `delete` of the rule's whole subtree; never refused. */
  function DeleteDnat(ruleId: int64): (q: Request)
    ensures q.endpoint == ENDPOINT_CONFIGURE
    ensures q.payload.Single? && q.payload.action.op == ACTION_DELETE
    ensures q.payload.action.path == Some(["nat", "destination", "rule", FormatInt(ruleId as int)])
  {
    Request(ENDPOINT_CONFIGURE, Single(Action(ACTION_DELETE, Some(RulePath(Destination, ruleId)))))
  }

  /**
   * The family requirement of AddRoute: version 4 wants both addresses IPv4,
   * version 6 wants neither IPv4, and any other version asks nothing.
   */
  predicate RouteFamilyFits(version: int64, dest: Ip, nextHop: Ip) {
    && (version == VERSION_IPV4 ==> dest.isV4 && nextHop.isV4)
    && (version == VERSION_IPV6 ==> !dest.isV4 && !nextHop.isV4)
  }

  /**
   * AddRoute: the destination must parse as CIDR and is sent as its network
   * address; the next hop must parse as an IP and is sent as written; the
   * route kind is `route6` for version 6 and `route` for every other version.
   */
  function AddRoute(p: Parsers, destNet: string, nextHop: string, version: int64): (r: Result<Request, Refusal>)
    ensures r.Success? <==>
      && p.parseCIDR(destNet).Some?
      && p.parseIP(nextHop).Some?
      && RouteFamilyFits(version, p.parseCIDR(destNet).value.ip, p.parseIP(nextHop).value)
    ensures p.parseCIDR(destNet).None? ==> r == Failure(InvalidDestNet(destNet))
    ensures p.parseCIDR(destNet).Some? && p.parseIP(nextHop).None? ==> r == Failure(InvalidNextHop(nextHop))
    ensures p.parseCIDR(destNet).Some? && p.parseIP(nextHop).Some? && r.Failure? ==> r.error == FamilyMismatch
    ensures r.Success? ==>
      && r.value.endpoint == ENDPOINT_CONFIGURE
      && r.value.payload.Single?
      && r.value.payload.action.op == ACTION_SET
      && r.value.payload.action.path.Some?
      && var path := r.value.payload.action.path.value;
      && |path| == 6
      && path[..2] == ["protocols", "static"]
      && (path[2] == "route6" <==> version == 6)
      && (path[2] == "route" <==> version != 6)
      && path[3] == p.parseCIDR(destNet).value.network
      && path[4] == "next-hop"
      && path[5] == nextHop
  {
    var destCidr := p.parseCIDR(destNet);
    if destCidr.None? then Failure(InvalidDestNet(destNet))
    else
      var destNetIp := destCidr.value.ip;
      var nextHopIp := p.parseIP(nextHop);
      if nextHopIp.None? then Failure(InvalidNextHop(nextHop))
      else if version == VERSION_IPV4 && (!destNetIp.isV4 || !nextHopIp.value.isV4) then Failure(FamilyMismatch)
      else if version == VERSION_IPV6 && (destNetIp.isV4 || nextHopIp.value.isV4) then Failure(FamilyMismatch)
      else
        var routeType := if version == VERSION_IPV6 then "route6" else "route";
        Success(Request(ENDPOINT_CONFIGURE, Single(Action(ACTION_SET,
          Some(["protocols", "static", routeType, destCidr.value.network, "next-hop", nextHop])))))
  }

  /** ShowConfiguration's query: `showConfig` with an empty (not nil) path, sent to `retrieve`. */
  function ShowConfiguration(): (q: Request)
    ensures q.endpoint == "retrieve"
    ensures q.payload == Single(Action("showConfig", Some([])))
  {
    Request(ENDPOINT_SHOW_CONFIGURATION, Single(Action(ACTION_SHOW_CONFIGURATION, Some([]))))
  }
}
