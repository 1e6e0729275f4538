# VyOS HTTP client: request layer

A model of the request-building layer of a Go client for the VyOS router's
HTTP configuration API. Each public operation of the client (`SetAddress`,
`DeleteAddress`, `DeleteInterface`, `SaveConfig`, `AddSnat`, `DeleteSnat`,
`AddDnat`, `DeleteDnat`, `AddRoute`, `ShowConfiguration`) checks its
arguments and then either refuses before contacting the router or posts one
action, or one ordered batch of actions, to an endpoint (`configure`,
`config-file` or `retrieve`). An action is an operation name (`set`,
`delete`, `save`, `showConfig`) and a path of configuration segments. The
router answers with an envelope `{success, error, data}`.

Files and modules:

- `wrappers.dfy` (`Wrappers`): `Option`, `Result`, `Outcome`.
- `decimal.dfy` (`Decimal`): Go's `fmt.Sprintf("%d", n)` as `FormatInt`, and a reading-back function. The round trip shows that a NAT rule's id segment names exactly that rule id.
- `addresses.dfy` (`Addresses`): what the client learns from `net.ParseIP` and `net.ParseCIDR`. Both parsers are parameters (`Parsers`). A parsed address keeps only `isV4`, which stands for `To4() != nil`. A parsed CIDR also keeps its network address as text, with host bits cleared.
- `request.dfy` (`Vyos`): the constants, `Action`, and the ten builders. Each builder returns either a `Refusal` or the `Request` (endpoint plus payload) that is handed to the transport. `Payload.Single` is `executeAction`; `Payload.Batch` is `executeBatchAction`. A nil path (`SaveConfig`) is `None`, which is distinct from the empty path of `ShowConfiguration`.
- `exchange.dfy` (`Exchange`): `decodeResp`, and the common tail "send, then decode". This tail takes the transport as a function parameter and records in a `Trace` which requests were handed over. "Refused before sending" therefore reads `sent == []`.
- `properties.dfy` (`Properties`): lemmas that relate several operations.

Some behaviour of the code that is easy to miss: when the address
is empty, `SetAddress` sends a batch of one action, not two. Of the NAT operations,
only `AddSnat` and `AddDnat` validate; the deletes accept any rule id. `AddRoute`
checks families only for versions 4 and 6. Any other version is accepted
with both families and uses the `route` kind.

## Model

| member | source | states |
|---|---|---|
| `Decimal.NatToDecimal` | request.go:155 | the numeral of a non-negative rule id is non-empty, all digits, and has no leading zero |
| `Decimal.FormatInt` | request.go:155 | `%d` yields a canonical numeral, with a leading '-' exactly for negative numbers |
| `Decimal.NatToDecimalRoundTrip` | request.go:155 | reading back the digits of n gives n |
| `Decimal.FormatIntRoundTrip` | request.go:155 | reading back `%d` of any integer gives that integer |
| `Decimal.FormatIntInjective` | request.go:178 | two rule ids print the same exactly when they are equal |
| `Vyos.Message` | request.go:75-254 | each refusal's text quotes the rejected argument at its end |
| `Vyos.SetAddress` | request.go:67-90 | refused (invalid CIDR) iff the address is non-empty and not CIDR; otherwise a batch to `configure` whose first action sets MTU 1450, with exactly one more action, setting the address verbatim, iff the address is non-empty |
| `Vyos.DeleteAddress` | request.go:93-109 | refused iff the address is non-empty and not CIDR; otherwise one `delete` of `interfaces ethernet <if> address`, extended by the address as a fifth segment iff it is non-empty |
| `Vyos.DeleteInterface` | request.go:113-122 | one `delete` of the interface's subtree `interfaces ethernet <if>`, never refused |
| `Vyos.SaveConfig` | request.go:126-135 | one `save` action with a nil path to `config-file` |
| `Vyos.RulePath` | request.go:176-179 | a rule's root is `nat <table> rule <id>`, and its last segment reads back as the rule id |
| `Vyos.AddSnat` | request.go:139-171 | accepted iff both addresses parse and are of one family; which refusal comes first (source, then translation, then family); on acceptance three `set` actions under the rule, ending in interface, source address, translation address |
| `Vyos.DeleteSnat` | request.go:175-184 | one `delete` whose path is exactly `nat source rule <id>` |
| `Vyos.AddDnat` | request.go:188-221 | accepted iff both addresses parse and are of one family; refusal order (destination, translation, family); on acceptance three `set` actions under the rule, ending in interface, destination address, translation address |
| `Vyos.DeleteDnat` | request.go:225-234 | one `delete` whose path is exactly `nat destination rule <id>` |
| `Vyos.AddRoute` | request.go:238-270 | accepted iff the destination is CIDR, the next hop is an IP, version 4 has both IPv4 and version 6 neither; refusal order; on acceptance `set protocols static <kind> <network of destination> next-hop <next hop>`, where kind is `route6` iff version is 6 |
| `Vyos.ShowConfiguration` | request.go:275-279 | the query is `showConfig` with an empty (non-nil) path, sent to `retrieve` |
| `Exchange.DecodeResp` | request.go:55-64 | an error exactly when `success` is false, carrying the envelope's `error` |
| `Exchange.Call` | request.go:85-89 | a refused request sends nothing and returns its refusal; an accepted one is sent exactly once; the call succeeds iff it was accepted, delivered and the envelope says success; transport and remote failures are returned with their cause |
| `Exchange.ShowConfigurationCall` | request.go:274-291 | sends its query once; returns the envelope's `data` iff delivered with success, else the transport's or the envelope's error |
| `Properties.InvalidCidrSendsNothing` | request.go:75-78 | a non-empty, non-CIDR address makes both address operations fail with nothing sent |
| `Properties.FamilyMismatchSendsNothing` | request.go:149-151 | SNAT and DNAT with addresses of different families fail with nothing sent |
| `Properties.DeleteAddressUndoesSetAddress` | request.go:98-102 | deleting an address targets exactly the node that setting it created |
| `Properties.DeleteInterfaceCoversAddresses` | request.go:114-117 | the interface subtree strictly contains every path of both address operations; deleting all addresses strictly contains the set address node |
| `Properties.DeleteNatCoversExactlyItsRule` | request.go:175-229 | a NAT delete lies over an action of a NAT add iff both name the same table and the same rule id |
| `Properties.OtherVersionsSkipFamilyCheck` | request.go:250-259 | for versions other than 4 and 6, a route is accepted iff both addresses parse, and its kind is `route` |
| `Properties.ShowConfigurationAgreesWithDecodeResp` | request.go:283-290 | the inline envelope check of ShowConfiguration succeeds and fails exactly as decodeResp does, with the same error |

## Left out

- The HTTP transport in client.go, covering `NewClient`, `doRequest` and `post`, with timeouts, TLS and the status check. It is network I/O, so the transport is the `send` parameter and its failures are `Reply.Failed`.
- `execute`, `executeAction` and `executeBatchAction`, which do JSON marshalling and form encoding (`data=<json>&key=`). These are library encodings. The model stops at the `Request` handed to them.
- The JSON decoding of the reply. The envelope arrives already parsed. `post` rejects a body that does not decode, so the second decoding in `decodeResp` and `ShowConfiguration` always succeeds and is not modelled.
- The rounding of a JSON number's text to Go's `float64`, which is done by the JSON decoder. `Exchange.Value` holds the resulting `float64` as its 64 bits and never sees the text.
- On a status outside 200-299, `post` also returns the body. Every operation discards it, so `Reply.Failed` carries only a cause.
- `Exchange.DecodeResp`: the error's text, which is `fmt.Errorf("%s", …)` of an arbitrary JSON value, is not computed. The error carries the value itself.
- The textual grammar of IPv4/IPv6 addresses and CIDR prefixes, the IPv4-mapped case of `To4()`, and the computation of the network address. These belong to Go's `net` package and come in as `Parsers`.
- Vyos.AddRoute: states that the route carries the CIDR parser's network text, not that its host bits are cleared, because that computation belongs to the parser.
- Go's `int` is taken to be 64 bits wide (`int64`).
- doc.go holds only a package comment. example/example.go is a demo that calls a live router.
