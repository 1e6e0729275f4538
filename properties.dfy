/**
 * Properties that relate several operations: which requests a refusal
 * suppresses, and which `delete` removes what a `set` created.
 */
module Properties {
  import opened Wrappers
  import opened Decimal
  import opened Addresses
  import opened Vyos
  import opened Exchange

  /** A non-empty address that is not CIDR is refused by both address operations, and nothing is sent. */
  lemma InvalidCidrSendsNothing(p: Parsers, send: Request -> Reply, interfaceName: string, address: string)
    requires |address| != 0 && p.parseCIDR(address).None?
    ensures Call(SetAddress(p, interfaceName, address), send) == Trace([], Fail(Refused(InvalidCidr)))
    ensures Call(DeleteAddress(p, interfaceName, address), send) == Trace([], Fail(Refused(InvalidCidr)))
  {
  }

  /** NAT rules whose addresses are of different families are refused, and nothing is sent. */
  lemma FamilyMismatchSendsNothing(p: Parsers, send: Request -> Reply, ruleId: int64,
                                   matchIp: string, translationIp: string, interfaceName: string)
    requires p.parseIP(matchIp).Some? && p.parseIP(translationIp).Some?
    requires !SameFamily(p.parseIP(matchIp).value, p.parseIP(translationIp).value)
    ensures Call(AddSnat(p, ruleId, matchIp, translationIp, interfaceName), send) == Trace([], Fail(Refused(FamilyMismatch)))
    ensures Call(AddDnat(p, ruleId, matchIp, translationIp, interfaceName), send) == Trace([], Fail(Refused(FamilyMismatch)))
  {
  }

  /** Deleting an address targets exactly the node that setting the same address created. */
  lemma DeleteAddressUndoesSetAddress(p: Parsers, interfaceName: string, address: string)
    requires |address| != 0 && SetAddress(p, interfaceName, address).Success?
    ensures DeleteAddress(p, interfaceName, address).Success?
    ensures Segments(DeleteAddress(p, interfaceName, address).value.payload.action)
         == Segments(SetAddress(p, interfaceName, address).value.payload.actions[1])
  {
  }

  /**
   * Deleting with an empty address removes the parent of every address node
   * SetAddress creates, and deleting the interface removes everything that
   * either address operation touches.
   */
  lemma DeleteInterfaceCoversAddresses(p: Parsers, interfaceName: string, address: string)
    requires SetAddress(p, interfaceName, address).Success?
    ensures var all := Segments(DeleteAddress(p, interfaceName, "").value.payload.action);
            |address| != 0 ==> all < Segments(SetAddress(p, interfaceName, address).value.payload.actions[1])
    ensures var root := Segments(DeleteInterface(interfaceName).payload.action);
            && (forall a <- SetAddress(p, interfaceName, address).value.payload.actions :: root < Segments(a))
            && root < Segments(DeleteAddress(p, interfaceName, address).value.payload.action)
  {
  }

  /** The NAT operations of one kind, chosen by kind. */
  function AddNat(kind: NatKind, p: Parsers, ruleId: int64, matchIp: string, translationIp: string,
                  interfaceName: string): Result<Request, Refusal>
  {
    match kind
    case Source => AddSnat(p, ruleId, matchIp, translationIp, interfaceName)
    case Destination => AddDnat(p, ruleId, matchIp, translationIp, interfaceName)
  }

  function DeleteNat(kind: NatKind, ruleId: int64): Request {
    match kind
    case Source => DeleteSnat(ruleId)
    case Destination => DeleteDnat(ruleId)
  }

  /**
   * A NAT delete removes an action of a NAT add exactly when both name the
   * same table and the same rule id: deleting one rule leaves every other
   * rule, and the other table, untouched.
   */
  lemma DeleteNatCoversExactlyItsRule(p: Parsers, addKind: NatKind, addId: int64, matchIp: string,
                                      translationIp: string, interfaceName: string,
                                      deleteKind: NatKind, deleteId: int64)
    requires AddNat(addKind, p, addId, matchIp, translationIp, interfaceName).Success?
    ensures var actions := AddNat(addKind, p, addId, matchIp, translationIp, interfaceName).value.payload.actions;
            var deleted := Segments(DeleteNat(deleteKind, deleteId).payload.action);
            forall k | 0 <= k < |actions| ::
              deleted <= Segments(actions[k]) <==> deleteKind == addKind && deleteId == addId
  {
  }

  /** Versions other than 4 and 6 skip the family check and always use the IPv4 route kind. */
  lemma OtherVersionsSkipFamilyCheck(p: Parsers, destNet: string, nextHop: string, version: int64)
    requires version != VERSION_IPV4 && version != VERSION_IPV6
    ensures AddRoute(p, destNet, nextHop, version).Success? <==>
              p.parseCIDR(destNet).Some? && p.parseIP(nextHop).Some?
    ensures AddRoute(p, destNet, nextHop, version).Success? ==>
              Segments(AddRoute(p, destNet, nextHop, version).value.payload.action)[2] == "route"
  {
  }

  /** ShowConfiguration's own envelope check fails exactly when decodeResp would, with the same error. */
  lemma ShowConfigurationAgreesWithDecodeResp(send: Request -> Reply)
    ensures var shown := ShowConfigurationCall(send);
            var decoded := Call(Success(ShowConfiguration()), send);
            && shown.sent == decoded.sent
            && (shown.result.Success? <==> decoded.result.Pass?)
            && (shown.result.Failure? ==> decoded.result == Fail(shown.result.error))
  {
  }
}
