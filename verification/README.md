# The WireGuard mesh control plane, verified

The control plane enrols machines into WireGuard meshes. Each mesh has one hub; operators mint join
tokens; a machine registers with a token and becomes the hub's bound device or a spoke with an
address in the hub's mesh. From its database the control plane computes every node's peer list.
Clients without Python flatten the JSON response with an awk program, regroup the lines into
`[Peer]` stanzas with a second one, and hand the result to WireGuard.

The project has three parts and one theorem that joins them.

1. **Enrolment.** `Model`, `Queries` and `Steps` describe the database and each request as one atomic
   step; `Handlers` is the same as an object whose methods change tables row by row, proved equal
   to the steps and to do for a caller what `Effects` and `Admission` say: which rows change, field
   by field, and which answer comes when. `Invariants` proves what all runs keep.
   `Secrets`, `Slots`, `Allocation`, `Reclaim` and `MeshSearch` build on it; `Cidr` is the address
   arithmetic under all of them (section 3.1 of RFC 4632). `Scenario` runs the steps from the empty
   database to two linked meshes; `Counterexamples` and `SharedSubnet` go on from there to each
   failing case.
2. **Routes.** `Routing` says what each node's peer list is, with WireGuard's cryptokey routing
   (section 2 of the WireGuard whitepaper) on top; `RouteLoops` is the loops that compute it.
   `PeerRows` says from which rows each entry of a list comes, its endpoint included, and
   `DualHomed` is a run in which a host's second hub matters to that.
   `HubFilter`, `Lookups`, `Delivery`, `Egress` and `Isolation` prove where packets go and where
   they do not; `Subnets` says which steps keep the hypothesis about advertised subnets, and
   `Defaults` when a hub's file sends everything to another hub.
3. **Text.** `Unicode`, `Flattening`, `JsonTree` and `Reading` prove that the awk flattener inverts
   JSON printing (RFC 8259, RFC 3629); `FlatFile`, `Jget`, `Escaping` and `RegisterBody` cover the
   shell helpers around it; `Regroup` and `Rendering` prove that the regrouping pass refines the structured
   Python renderer; `Encoding` shows that responses exist for the peer lists.

`Installed.RunDeliversInstalled` is the capstone. Take any run of the control plane that does not edit
a hub's mesh or address and mints no mesh longer than /24, with advertised subnets clear of the
meshes. Let every live device install its peer list through any JSON text of the response. Then
a packet from a spoke to a device of another hub passes spoke, hub, hub and device by the
installed files alone, each receiver's source check accepting it, iff the two are *connected*: the
hubs are linked and both configured with endpoints, and at each end that is a spoke the host does
not itself join the other hub, or the spoke carries its own hub's default route.
`Counterexamples.DeliveryHypothesesMet` is a run that meets every hypothesis and connects two
spokes, and `Subnets.ClearStepIff` turns the hypothesis about subnets into a condition on each
request.

Words used below. A run is *calm* if no step edits a hub's mesh or `wg_ip`, *wide* if no step sets a
mesh longer than /24. A state is *sane* if the invariant holds, every address is the one its
mesh gives its slot, all meshes are /24 or larger, and no advertised subnet overlaps a mesh;
`Lookups.CalmRunSane` says which runs end in such a state.

## Claims that are false of the code, and their exact conditions

- `deviceIP` keeps a device inside its mesh for every slot iff the mesh is /24 or larger
  (`Cidr.DeviceIPInMeshIff`). Two /25 hubs on one /24 are both accepted and share an address
  (`Allocation.HalfMeshHubsCollide`).
- A comment in store.go says that a picked mesh passes the mint guard trivially. It passes iff no
  mesh that is spelled differently or sized differently overlaps it (`MeshSearch.PickAcceptedIff`,
  with the refused case in `MeshSearch.UntidyMeshBlocksPick`, reached from the empty database in
  `Counterexamples.UntidyMeshReached`).
- Re-issuing a hub token with the mesh left blank is always refused (`MeshSearch.BlankReissueRefused`).
- Reset-bind does not make a hub slot reclaimable. From then on every hub registration is refused,
  whatever tokens are minted later, until the device that was bound is retired, and no other step
  ends that (`Reclaim.ResetBindNeedsRemoval`, `Reclaim.HeldUntilRetired`).
- A freed hub slot cannot always be reclaimed with a fresh token either. An edit that leaves the
  endpoint out blanks it, and an unbound hub is issued a token iff its endpoint is not blank
  (`Reclaim.ReissueIff`; the failing run is `Counterexamples.BlankEndpointNeverReissued`).
- A bind is refused while another hub's site carries the hub site's slug, which takes a hub slug
  with a colon (`Reclaim.ColonFreeHubBinds`, `Reclaim.ColonSlugsClash`, reached in
  `Counterexamples.ColonSlugsClashReached`).
- Automatic site names collide with given ones: after a first site named `site_2`, every device of
  that hub that names no site and comes from a new network is refused, as long as index 2 is the
  least free one. A site resolves iff it is known or its new name is free (`Allocation.ResolveSiteIff`; the run is
  `Counterexamples.NamedSiteBlocksAutomatic`).
- A comment in the install script says that one scalar is always one line of the flattened file. That
  holds for every JSON text, and for any other input in which no backslash stands before a tab or
  newline (`FlatFile.OneLinePerScalar`, with `FlatFile.BrokenEscapeBreaks`).
- Peering is not always mutual. An entry between hubs is answered iff the listing hub has an
  endpoint; all other entries always are (`Isolation.PeeringMutual`,
  `Counterexamples.BlankEndpointUnanswered`).
- A fabric peer can carry a default route: iff its hub's `wg_ip`, which takes any text, was edited
  to one of which some part between commas is an address with length 0, however that is spelled
  (`Defaults.FabricDefaultIff`, `Counterexamples.FabricDefaultReached`; `0.0.0.0/00` and
  `0.0.0.0/0, 100.64.1.1` are such texts, `Counterexamples.DefaultTexts`). Calm runs never lead
  there (`Isolation.CalmFabricNoDefault`).
- Equal prefixes in one peer list do not always name one key. They name two iff two fabric peers
  of a hub advertise that subnet, which no guard compares (`Isolation.EqualPrefixesIff`, reached in
  `SharedSubnet.SharedSubnetTwoKeys`).
- The cross-hub dedup runs before the link filter, so it equals its specification only because
  meshes are disjoint (`HubFilter.DedupHidesLinked`, `HubFilter.CrossHubExtraExact`).
- Cross-hub egress routes are handed out without looking at links. The spoke's own hub takes the
  traffic iff the chosen hub has a bound device and an endpoint. It gets on to the chosen hub iff
  the two are also linked, the own hub has an endpoint too, and the chosen hub takes precedence at
  the own hub (`Egress.EgressDeliveredIff`).
- So a spoke's egress choice does not decide where its traffic leaves: among the linked hubs that
  advertise the address the longest route does, and among equal ones the highest hub id
  (`Egress.HubSendsTo`). `SharedSubnet.ChosenHubGetsNothing` is a run in which the chosen hub gets
  nothing.
- New routes are checked against all meshes, but a new mesh is not checked against the routes: a
  mint or a mesh edit may put a mesh under an advertised subnet (`Subnets.ClearStepIff`, with a run
  in `Counterexamples.MeshUnderSubnet`).
- The routing design document lets every hub's mesh reach every spoke; the code distributes only
  published links. The model follows the code.

## Model

| member | source | states |
|---|---|---|
| Installed.RunDeliversInstalled | internal/wg/install_script.go:288-312 | After every calm and wide run, if every live device installed its current peer list through text, a packet from a spoke to a device of another hub is sent and accepted hop by hop by the installed files iff the two are connected |
| Counterexamples.DeliveryHypothesesMet | internal/wg/handlers.go:225-326 | A run of two linked meshes that meets every hypothesis of the delivery results and connects two spokes |
| Installed.DeliversInstalled | internal/wg/install_script.go:264-312 | The same in every sane state, whether or not a run leads to it |
| Installed.DeliversInstalledInHub | internal/wg/join-linux.sh:235-254 | Inside one hub the installed files deliver directly over the LAN or through the hub |
| Installed.InstalledRoutes | internal/wg/join-linux.sh:235-254 | A file installed by either renderer, from any spelling of the response, makes the same routing decision for every address as the computed peer list |
| Installed.InstalledLookup | internal/wg/join-linux.sh:235-250 | Rendering a peer list to stanza text and reading the AllowedIPs back changes no longest-prefix decision |
| Installed.RunScript | internal/wg/install_script.go:264-312 | The two awk programs in a row compute the stanzas that the results about installed files speak of, from the records of the text |
| Installed.FileOfRecords | internal/wg/install_script.go:197-200 | What the flattener reads is the text, with a newline added if its last line lacks one |
| Installed.PeerListHasResponse | internal/wg/handlers.go:307-325 | Every spoke's peer list with ASCII keys and endpoints is listed by some response text, so the capstone's hypothesis can be met |
| Delivery.RunDelivers | internal/wg/handlers.go:225-326 | The same iff for the computed peer lists: spoke, hub, hub, device, each hop by longest-prefix match and accepted by its receiver |
| Delivery.DeliveredInHub | internal/wg/handlers.go:229-286 | Inside one hub a packet goes LAN-direct when both share a site and neither is isolated, and through the hub otherwise; every receiver accepts it |
| Delivery.DeliveredAcrossIff | internal/wg/handlers.go:591-651 | The same in every sane state |
| Delivery.AtMostThreeHops | internal/wg/handlers.go:403-427 | Whatever the link graph, a packet for a mesh address makes at most three hops and crosses at most one link |
| Isolation.NoLeak | internal/wg/handlers.go:388-427 | No AllowedIPs entry at a node matches an address of an unlinked hub's mesh, except a default route that a spoke chose at its own hub |
| Isolation.EqualPrefixesIff | internal/wg/handlers.go:229-307 | A node's list names two keys for one prefix iff the node holds its hub's binding and two fabric peers of the hub advertise that subnet |
| SharedSubnet.SharedSubnetTwoKeys | internal/wg/handlers.go:486-510 | A run after which a hub's list names two keys for one subnet |
| Defaults.FabricDefaultIff | internal/wg/handlers.go:410-424 | After every run the AllowedIPs line that a hub's file gets for a fabric peer holds a default route iff the text of that peer's wg_ip does, as the client splits and reads it; advertised routes never bring one |
| Isolation.CalmFabricNoDefault | internal/wg/handlers.go:410-424 | After calm runs no fabric peer carries the /0 network |
| Counterexamples.FabricDefaultReached | internal/wg/handlers.go:860-862 | For every such text, a run with one wg_ip edit after which the line holds a default route |
| Counterexamples.DefaultTexts | internal/wg/handlers.go:860-862 | Three such texts: plain, with a padded length, and as part of a list |
| Defaults.DefaultLiteral | internal/wg/handlers.go:433-448 | The literal default route is the text 0.0.0.0/0, and a client reads it as one |
| Isolation.CrossHubEgressNoDefault | internal/wg/handlers.go:464-473 | After every run cross-hub egress routes never denote the /0 network |
| Invariants.AcceptedRoutesOk | internal/wg/handlers.go:486-510 | A list accepted against at least one parseable mesh denotes /0 only by the literal default route |
| Egress.EgressDeliveredIff | internal/wg/handlers.go:453-475 | A spoke's cross-hub egress traffic is sent to and accepted by its own hub iff the chosen hub is configured with an endpoint; the hop on to the chosen hub is sent and accepted iff the two are linked, both configured with endpoints, and the chosen hub takes precedence for the address |
| Egress.HubSendsTo | internal/wg/handlers.go:403-427 | A hub sends an address outside all meshes to a fabric peer iff that one has the longest match and, among equal matches, the highest id |
| Egress.SoleAdvertiserCarries | internal/wg/handlers.go:403-427 | A linked hub that alone advertises the address takes precedence |
| SharedSubnet.ChosenHubGetsNothing | internal/wg/handlers.go:453-475 | A run after which a spoke's traffic reaches its own hub and goes to another hub than the chosen one |
| Delivery.HubHopIff | internal/wg/handlers.go:361-427 | For devices of two configured hubs, the hop between the hubs is sent and accepted iff they are linked and both have endpoints |
| Isolation.PeeringMutual | internal/wg/handlers.go:229-307 | After every run, if x's list names y, then y's names x iff they share a hub or x's hub has an endpoint |
| Counterexamples.BlankEndpointUnanswered | internal/wg/handlers.go:859 | A run with one edit after which a hub lists a linked hub that does not list it |
| Isolation.SpokeLists | internal/wg/handlers.go:229-286 | Exactly which devices a spoke's list names: LAN pairs and its hub's bound device |
| Isolation.HubLists | internal/wg/handlers.go:591-651 | Exactly which devices a hub's list names: its live spokes and the bound devices of usable linked hubs |
| PeerRows.SpokeEntries | internal/wg/handlers.go:229-290 | A spoke's list holds every LAN peer's row and, if its hub has a key, the hub's, and nothing else: keys, addresses, endpoints and routes are read off the rows |
| PeerRows.SpokeListOrder | internal/wg/handlers.go:229-290 | The LAN peers come first, in slot order and none twice, and the hub last |
| PeerRows.HubEntries | internal/wg/handlers.go:591-651 | A hub's list holds each of its live spokes at a /32 without an endpoint, and each linked hub with its key, endpoint, address, mesh and subnets, and nothing else |
| PeerRows.HubListOrder | internal/wg/handlers.go:604-637 | Its spokes come first, in slot order, then the linked hubs by ascending id, none twice |
| PeerRows.SelfEntries | internal/wg/handlers.go:293-307 | What a hub's device is given when it registers: its LAN peers, and the linked hubs with a trailing /32 of the address text cut off |
| PeerRows.RunEndpoints | internal/wg/handlers.go:229-307 | After every run an entry's endpoint is the own hub's, the LAN peer's reported one, none for a hub's spoke, or the linked hub's |
| PeerRows.InstalledStanzas | internal/wg/install_script.go:288-312 | The installed file has one stanza per entry of the list, in order, with its key and endpoint |
| PeerRows.RunStanzaEndpoints | internal/wg/install_script.go:288-312 | So after calm and wide runs the Endpoint of every installed stanza comes from those rows |
| PeerRows.HostHubsIff | internal/wg/store.go:961-987 | A hub counts as joined by a host iff it has a live device with that non-empty host id, or with that non-empty host name |
| PeerRows.UnskippedIff | internal/wg/handlers.go:265-274 | A hub's mesh is left out of a spoke's list for dual homing iff that hub has such a device |
| DualHomed.OtherMeshLeftOut | internal/wg/handlers.go:265-274 | A run after which a host is in two linked hubs, its lists leave the other mesh out, and no packet crosses between its devices by the tunnel |
| PeerRows.IsolatedPeersWithHub | internal/wg/handlers.go:233-242 | An isolated spoke lists at most its hub's device, and only that one lists it |
| PeerRows.AdmittedIsolated | internal/wg/alloc.go:275-290 | So does every spoke that registers as isolated |
| PeerRows.IsolatedForGood | internal/wg/handlers.go:233-242 | And it stays so after any continuation of the run |
| PeerRows.TraitsForGood | internal/wg/alloc.go:275-290 | Along every continuation a device row keeps its hub, site, slot, address, pubkey, isolation and creation time, and its id never comes back |
| HubFilter.OtherHubsIsFilter | internal/wg/handlers.go:361-380 | In every reachable state the dedup drops nothing: the loop returns the other usable hubs in order |
| HubFilter.CrossHubExtraExact | internal/wg/handlers.go:388-398 | A spoke's cross-hub routes are the networks of the other configured, endpointed, linked, unskipped hubs, all of them, in order, none twice |
| HubFilter.NetworksInOrder | internal/wg/handlers.go:388-398 | The cross-hub networks come in the order of the hubs |
| HubFilter.DedupHidesLinked | internal/wg/handlers.go:361-398 | With a shared network an unlinked earlier hub hides a linked later one, so disjointness is needed |
| HubFilter.FabricExact | internal/wg/handlers.go:403-427 | A hub's fabric peers are exactly the other configured, endpointed, linked hubs |
| Lookups.CalmRunSane | internal/wg/handlers.go:853-883 | Calm and wide runs with clear subnets end in sane states |
| Subnets.ClearStepIff | internal/wg/handlers.go:863-883 | From a state with clear subnets a step leads to another iff its request passes no guard with a mesh over an advertised subnet, the request's own routes included |
| Subnets.ConsiderateRunSane | internal/wg/handlers.go:863-883 | So the condition on subnets can be checked before each step of a run |
| Counterexamples.MeshUnderSubnet | internal/wg/store.go:632-648 | A run that mints a mesh where another hub advertises a subnet |
| Lookups.SpokeFindsHub | internal/wg/handlers.go:255-286 | At a spoke every routed mesh address that is no LAN peer's is sent to the hub |
| Lookups.SpokeFindsForeign | internal/wg/handlers.go:255-286 | A spoke sends an address of another hub's mesh to its own hub iff that mesh is routed or it carries its own hub's default route, and to nobody otherwise |
| Lookups.HubFindsLinked | internal/wg/handlers.go:403-427 | At a hub every address of a linked hub's mesh is sent to that hub |
| Lookups.RegisterListAgrees | internal/wg/handlers.go:293-307 | For every address outside its own mesh, the list a hub's device is given when it registers decides as the list it polls |
| Lookups.RegisterListOwnMesh | internal/wg/handlers.go:229-253 | For an address of its own mesh that list finds exactly the LAN peers of the hub's device |
| Lookups.RegisterListFindsLinked | internal/wg/handlers.go:293-307 | In particular that list sends a linked hub's mesh to that hub |
| RouteLoops.OtherConfiguredHubs | internal/wg/handlers.go:361-380 | The loop with its seen map computes the dedup filter |
| RouteLoops.CrossHubAllowedExtra | internal/wg/handlers.go:388-398 | The loop computes the linked, unskipped networks |
| RouteLoops.OtherConfiguredHubPeers | internal/wg/handlers.go:403-427 | The loop computes the fabric peers |
| RouteLoops.EgressAllowedExtra | internal/wg/handlers.go:453-475 | The scan computes the egress routes, empty for an unreachable egress hub |
| RouteLoops.HubLinkSet | internal/wg/store.go:311-331 | Collecting rows in any order gives the set of linked hubs |
| RouteLoops.HubIDsForHost | internal/wg/store.go:961-987 | Collecting rows in any order gives exactly the hubs with a live device of that non-empty host id or host name |
| RouteLoops.BuildPeerList | internal/wg/handlers.go:225-307 | The handler computes the peer list of a spoke or of the hub itself, LAN peers in slot order; a spoke's entries are LAN rows and its hub's row, endpoints included |
| RouteLoops.HandleHubPeers | internal/wg/handlers.go:604-637 | The handler computes the bound hub's peer list, spokes in slot order; its entries are its live spokes' rows and its linked hubs' |
| Queries.SlotRowsOrdered | internal/wg/store.go:908-955 | The rows behind both lists come in slot order |
| Queries.SlotRowsEach | internal/wg/store.go:908-955 | Each row that qualifies comes exactly once, and no other |
| Queries.SlotRowsDistinct | internal/wg/store.go:908-955 | No row comes twice |
| Handlers.FilterSubnets | internal/wg/handlers.go:440-448 | Keeps, in order, exactly the routes other than the literal default route |
| Queries.SubnetsInOrder | internal/wg/handlers.go:440-448 | Dropping the literal default routes keeps all others, in order and with repeats |
| Invariants.RunInv | internal/wg/alloc.go:85-133 | The whole invariant holds after every sequence of steps from the empty database |
| Invariants.HubBindingAlways | internal/wg/store.go:192-222 | After every run a hub has a pubkey iff it is bound, and then to a live device of its own with that pubkey, in slot 1 of the hub's own site |
| Invariants.MeshesAlwaysDisjoint | internal/wg/handlers.go:863-871 | After every run, edits included, no address lies in two hubs' meshes |
| Invariants.LiveDevicesAlwaysApart | scripts/migrate/wg-schema.sql:118-120 | After every run live devices differ in address, pubkey, secret and, across all sites of a hub, in slot |
| Cidr.OverlapsIffShared | internal/wg/handlers.go:478-480 | cidrOverlaps is true iff some address lies in both networks |
| Cidr.Laminar | internal/wg/handlers.go:478-480 | Of two networks that meet, the shorter prefix contains the other |
| Cidr.ContainsIsRange | internal/wg/alloc.go:560-573 | A network of length l holds exactly the 2^(32-l) addresses from its base |
| Cidr.DeviceIPInMeshIff | internal/wg/alloc.go:578-587 | deviceIP stays inside the mesh for all slots iff the mesh is /24 or larger |
| Cidr.DeviceIPCollides | internal/wg/alloc.go:578-587 | Two meshes hand out one address iff the slots are equal and the networks share a /24 |
| Allocation.HalfMeshHubsCollide | internal/wg/store.go:586-660 | Minting hubs on both halves of a /24 is accepted and gives them one address, outside the second mesh |
| Allocation.DevicesInOneMesh | internal/wg/alloc.go:500-527 | After every calm and wide run each device's address lies in its own hub's mesh and in no other |
| Allocation.CollidesIffSlotTaken | scripts/migrate/wg-schema.sql:118-120 | In such states the three unique indexes object to a new pubkey's row iff its slot is taken |
| Allocation.AllocateGrantedIff | internal/wg/alloc.go:248-316 | A device registration with a new pubkey is granted iff its site is known or can be opened and the hub has fewer than 253 live spokes |
| Allocation.ResolveSiteIff | internal/wg/alloc.go:320-341 | A site resolves iff the hub has it under that slug or network, or a site index is free and no site of any hub carries the slug it would get |
| Counterexamples.NamedSiteBlocksAutomatic | internal/wg/alloc.go:431-446 | A run after which every automatic registration from a new network is refused at the name site_2 |
| Allocation.AllocationNeverCollides | internal/wg/alloc.go:275-290 | After every calm and wide run a uniqueness refusal can only come from opening a site, never from the device insert |
| Allocation.BindGrantedIff | internal/wg/alloc.go:176-216 | A hub registration is granted iff no other hub's site has the hub site's slug and slot 1 is free; it gets the hub's address |
| Admission.RegisterAnswers | internal/wg/alloc.go:85-316 | For every request, which answer it gets and what every table then holds: the refusals in their order, a known key refreshed in host name, host id and LAN endpoint alone, a new key entered as one device row |
| Admission.EntersAsAdmitted | internal/wg/alloc.go:222-313 | A row that a registration enters has the request's key, names, LAN endpoint and secret, the token's expiry, the time, no report and no egress choice; a spoke has the request's isolation, the least free slot and that slot's address; a hub's device has slot 1, the hub's address and no isolation, and a prestamped endpoint outlives the observed one |
| Admission.IndexesExhaustedIff | internal/wg/alloc.go:464-485 | A registration runs out of site indexes iff no site is meant by it and all of 1..254 are used |
| Admission.SpokeSited | internal/wg/alloc.go:320-341 | A resolved site is meant by the request: one that was there, untouched, or one new row with the least free index and the reported network, which the same request then finds |
| Secrets.TokenCreatesOnce | internal/wg/alloc.go:122-124 | Over a whole run a join token creates at most one device row |
| Secrets.BearerUnambiguous | internal/wg/store.go:857-872 | After every run a live device's secret finds that device |
| Secrets.BearerIff | internal/wg/handlers.go:174-203 | After every run a request authenticates the device that it claims to be iff that device is live, the secret is its own and has not expired |
| Secrets.DeadNeverWorks | internal/wg/handlers.go:174-203 | Once retired, a secret authenticates nobody and registers nothing in any continuation of the run |
| Secrets.RotateKills | internal/wg/handlers.go:730-747 | Rotation retires the old secret and the new one authenticates the same device |
| Secrets.LeaveKills | internal/wg/handlers.go:704-721 | Leaving retires the bearer secret |
| Secrets.RemoveKills | internal/wg/handlers.go:1132-1157 | Admin removal retires the device's secret |
| Secrets.SweepKills | internal/wg/gc.go:120-182 | A sweep retires the secret of every stale device |
| Secrets.ReleaseKills | internal/wg/internal_cloud.go:155-188 | Release retires the join secret and whatever secret its device rotated to |
| Slots.SlotsConserved | internal/wg/alloc.go:500-527 | Free slots and live spokes of a hub always add up to 253 |
| Slots.PickFailsIffFull | internal/wg/alloc.go:500-527 | The search returns the least free slot and fails iff the hub has 253 live spokes |
| Slots.RetireFreesOneSlot | internal/wg/store.go:1010-1024 | Removing a live spoke frees exactly one slot |
| Slots.SweepFreesSlots | internal/wg/gc.go:160-181 | A sweep frees as many slots of a hub as it has victims among the hub's spokes |
| Effects.SweepLeaves | internal/wg/gc.go:120-182 | The devices live after a sweep are exactly those live before whose last report, or creation if there is none, is at or after the cutoff; only hubs bound to a removed device are unbound |
| Slots.ReleaseOnce | internal/wg/internal_cloud.go:155-188 | A release frees one slot and a second release changes nothing |
| Reclaim.HubSlotReclaimed | internal/wg/alloc.go:176-216 | After the bound device of a hub with an endpoint leaves, is removed, released or swept, a fresh hub token and pubkey rebind the hub at the same address |
| Reclaim.ReissueIff | internal/wg/store.go:594-631 | Some request issues an unbound hub a token iff the hub has an endpoint |
| Counterexamples.BlankEndpointNeverReissued | internal/wg/store.go:594-631 | A run after which an unbound hub is issued no token by any request |
| Reclaim.ResetBindNeedsRemoval | internal/wg/handlers.go:913-927 | After a reset-bind, along any continuation in which the device that was bound is not retired, every registration of a new pubkey with a hub token of that hub, old or new, is refused and changes nothing |
| Reclaim.HeldUntilRetired | internal/wg/handlers.go:913-927 | A step ends that iff it retires the device, and then slot 1 is free |
| Reclaim.SlotHeldRefuses | internal/wg/alloc.go:176-216 | In every reachable state an unbound hub with slot 1 in use refuses every hub registration |
| Reclaim.ColonFreeHubBinds | internal/wg/alloc.go:400-429 | With colon-free hub slugs an unbound hub with slot 1 free can always be bound |
| Reclaim.ColonSlugsClash | internal/wg/alloc.go:320-329 | With a colon in a slug, a bind is refused in every state in which another hub's named site carries the hub site's slug |
| Counterexamples.ColonSlugsClashReached | internal/wg/alloc.go:320-329 | A run that ends in such a state, with the refusal |
| MeshSearch.PickAcceptedIff | internal/wg/store.go:391-415 | The pick is the lowest /24 in octet order that no hub spells, and passes the guard iff no untidy mesh overlaps it |
| MeshSearch.PickIsLowest | internal/wg/store.go:391-415 | The pick is the lowest of the 16384 /24 networks of 100.64.0.0/10 that no hub spells; it fails iff all are spelled |
| MeshSearch.UntidyMeshBlocksPick | internal/wg/store.go:632-648 | A mesh typed with host bits makes a blank-mesh mint fail |
| Counterexamples.UntidyMeshReached | internal/wg/store.go:632-648 | A first mint after which a mint without a mesh changes nothing |
| MeshSearch.BlankReissueRefused | internal/wg/store.go:624-631 | A hub token cannot be re-issued with the mesh left blank |
| Effects.HubMintIssues | internal/wg/store.go:586-660 | A hub mint is granted iff slug and endpoint are given, the mesh parses, a hub of that slug is unbound with the same endpoint and mesh, and a new one's mesh overlaps none; the secret is new and finds an unspent hub token of that hub, which is refused as expired iff the time is past its expiry; a new hub row has the slug, endpoint and mesh and is unbound; all other rows stay |
| Effects.EditRows | internal/wg/handlers.go:822-897 | An edit is granted iff its mesh overlaps no other hub's and its routes overlap none; the endpoint is then the given one, blank or not, and address, mesh and routes are those given or else as they were |
| Effects.LinkHostStamps | internal/wg/internal_wg_link.go:33-79 | Exactly the live devices named by key or address get the host id, and nothing else changes |
| Effects.ReleaseRows | internal/wg/internal_cloud.go:155-188 | A release revokes the token and removes the live device that spent it, if there is one, and no other |
| Effects.HeartbeatReports | internal/wg/handlers.go:665-695 | A report sets the device's time to now and its LAN endpoint to the one sent, if any; no sweep up to now takes it |
| Handlers.ValidateMeshDisjoint | internal/wg/handlers.go:553-571 | The loop accepts iff the mesh parses and overlaps no other hub's |
| Handlers.ValidateAdvertisedRoutes | internal/wg/handlers.go:486-510 | The loops accept iff every route is the default literal or parses clear of every mesh |
| Handlers.Plugin.PickFreeDIndex | internal/wg/alloc.go:500-527 | Returns the least of 2..254 that no live device in the hub's sites uses |
| Handlers.Plugin.PickFreeSIndexInHub | internal/wg/alloc.go:464-485 | Returns the least of 1..254 that no site of the hub uses |
| Handlers.Plugin.SuggestFreeMeshCIDR | internal/wg/store.go:391-415 | Returns the first unused /24 of 100.64.0.0/10 in octet order |
| Handlers.Plugin.CreateWGTokenForHub | internal/wg/store.go:586-660 | Issues a secret iff the mint is granted; it is new and finds an unspent hub token of that slug's hub with the given expiry; a new hub is unbound with the given endpoint and mesh; refused, nothing changes |
| Handlers.Plugin.CreateWGTokenForDevice | internal/wg/store.go:545-575 | Issues a secret iff the hub exists; the secret is new, finds an unspent device token of that hub, registers until it expires, and nothing else changes; the invariant is kept |
| Handlers.Plugin.MintInternalToken | internal/wg/internal_cloud.go:42-92 | Issues such a secret iff the slug names a hub with a bound device, and for that hub only |
| Handlers.Plugin.ResolveOrCreateWGSite | internal/wg/alloc.go:320-341 | Finds or opens the site of a registration, or leaves the database as it was |
| Handlers.Plugin.BindHubDevice | internal/wg/alloc.go:176-243 | A granted bind enters exactly the admitted row in slot 1 and binds the hub to it, keeping a prestamped endpoint; a refusal rolls back all staged inserts |
| Handlers.Plugin.AllocateDevice | internal/wg/alloc.go:248-316 | A granted registration enters exactly the admitted row, in the request's site and the least free slot, isolated iff the request is; a refusal rolls back |
| Handlers.Plugin.DoAllocate | internal/wg/alloc.go:85-133 | Every request gets its answer, and the tables the rows that go with it |
| Handlers.Plugin.HandleTokenRefresh | internal/wg/handlers.go:730-747 | The old secret is dead; the new one authenticates that device alone, until the new expiry if it had one; every other row is untouched |
| Handlers.Plugin.HandleLeave | internal/wg/handlers.go:704-721 | Answers exactly to an authenticated device; afterwards its secret is dead, no hub is bound to it, its slot is free and every other row is as it was |
| Handlers.Plugin.HandleDeviceRemove | internal/wg/handlers.go:1132-1157 | The same for any device row an operator names |
| Handlers.Plugin.HandleHeartbeat | internal/wg/handlers.go:665-695 | After a report no sweep with a cutoff up to that time takes the device; its report time and, if sent, its LAN endpoint are the reported ones and nothing else changes |
| Handlers.Plugin.RevokeToken | internal/wg/store.go:698-712 | The token's secret registers nothing any more, and every device goes on as before |
| Handlers.Plugin.ClearHubBind | internal/wg/handlers.go:913-927 | The hub is unbound while its device stays live in slot 1 |
| Handlers.Plugin.HandleTokenRelease | internal/wg/internal_cloud.go:155-188 | Succeeds iff the token exists; then it is revoked, the live device that spent it is gone, and nothing else changed; the join secret is dead |
| Handlers.Plugin.CollectVictims | internal/wg/gc.go:128-153 | Collects exactly the live devices whose last report, or else creation, is before the cutoff |
| Handlers.Plugin.SweepStaleDevices | internal/wg/gc.go:120-182 | The victim-by-victim loop leaves live exactly the devices heard from, or created, at or after the cutoff |
| Handlers.Plugin.HandleHubUpdate | internal/wg/handlers.go:822-897 | Succeeds iff mesh and routes overlap no other mesh, both checked on the table before the edit; then the row has the given values, the endpoint even if blank, and nothing else changed |
| Handlers.Plugin.DeleteHub | internal/wg/store.go:263-284 | Succeeds iff the hub exists without live devices; then nothing refers to it, and every other hub, live device, token and link is as it was |
| Handlers.Plugin.CreateHubLink | internal/wg/store.go:356-371 | Succeeds iff the two hubs differ and exist; then they are linked, both ways, and no other pair changes |
| Handlers.Plugin.DeleteHubLink | internal/wg/store.go:373-382 | Succeeds iff the link exists; then its two hubs are linked no longer and no other pair changes |
| Handlers.Plugin.HandleDeviceUpdate | internal/wg/handlers.go:1083-1128 | Accepts a choice for a live device iff it is none or its hub advertises a route the device may carry; the device's list then gains exactly those routes of a reachable hub, never a default route of another hub |
| Handlers.Plugin.HandleDeviceLink | internal/wg/internal_wg_link.go:33-79 | One update per key and address stamps exactly the live devices named |
| Reading.FlattenInvertsPrint | internal/wg/install_script.go:148-200 | For every JSON value, under any white space and escapes, the parser prints exactly the leaves in order and stops just past the value |
| Reading.ValueRead | internal/wg/install_script.go:176-196 | The same for a value anywhere in a larger text, under any path |
| Reading.UnitsRead | internal/wg/install_script.go:161-175 | A string literal in any mix of raw, short, \u and surrogate-pair spellings, lone surrogates included, reads as the UTF-8 of its code points, control characters as spaces |
| JsonTree.ControlsShowBlank | internal/wg/install_script.go:155-160 | A string of control characters, however each is spelled, is shown as that many spaces |
| Reading.HexRead | internal/wg/install_script.go:150-154 | The hex reader gives the place value of the four digits in either case, and its surrogate tests the ranges of the two halves |
| Flattening.Flattener.ReadValue | internal/wg/install_script.go:176-196 | The parser with its shared cursor ends on every input, well formed or not, and moves the cursor and prints as specified |
| Flattening.Flattener.ReadString | internal/wg/install_script.go:161-175 | The string loop ends on every input and reads as specified |
| Flattening.ValueAdvances | internal/wg/install_script.go:176-196 | The cursor never moves back; it passes the start of a value unless the input ran out or a delimiter stands there, and then the line printed is empty |
| Flattening.Jflat | internal/wg/install_script.go:197-200 | jflat prints the lines of the value at the start of the file |
| FlatFile.FlatFileIsLeaves | internal/wg/install_script.go:142-147 | Every printed line has exactly one tab, and reading the file back gives the leaves |
| FlatFile.OneLinePerScalar | internal/wg/install_script.go:142-147 | The same for any input at all, JSON or not, in which no backslash stands before a tab or newline |
| FlatFile.TurnCleanIff | internal/wg/install_script.go:161-175 | One turn of the string loop prints a tab or newline iff it is at such a backslash |
| FlatFile.BrokenEscapeBreaks | internal/wg/install_script.go:161-175 | An input with one, whose scalar takes two lines |
| Jget.JgetFinds | internal/wg/install_script.go:201 | For slash-free, unrepeated keys, jget yields the scalar that the value has at a path, and nothing for null, for the text "null" or where there is none |
| Jget.JgetFirst | internal/wg/install_script.go:201 | The lookup gives the value of the first record with the path, and of no later one |
| Jget.RunJget | internal/wg/install_script.go:201 | The awk loop computes that lookup |
| Jget.SplitPath | internal/wg/install_script.go:147 | Splitting a path at its slashes gives back its slash-free steps |
| Escaping.JsonEscRoundTrip | internal/wg/install_script.go:202 | pstr on a quoted json_esc(s) returns s without its control characters, wherever it stands |
| Escaping.DroppedIsIdentity | internal/wg/install_script.go:202 | The text comes back unchanged iff it has no control character |
| Escaping.DroppedEach | internal/wg/install_script.go:202 | A character is dropped iff it is a control character, 127 included |
| RegisterBody.BodyReadsBack | internal/wg/install_script.go:241-257 | Reading the register body that the printf writes gives every field back without its control characters, the LAN addresses as spelled, and nothing else |
| Unicode.DecodeOfUtf8 | internal/wg/install_script.go:155-160 | The bytes utf8 prints for a scalar value from 32 on decode to it under the RFC 3629 grammar |
| Unicode.Utf8OfDecode | internal/wg/install_script.go:155-160 | Conversely every character that the grammar admits from 32 on is spelled as utf8 spells it |
| Unicode.EncodeRoundTrip | internal/wg/install_script.go:155-160 | Whole printable texts decode back to their code points |
| Unicode.SurrogatesRecombine | internal/wg/install_script.go:166-169 | Two surrogates recombine to a code point iff they are its halves |
| Unicode.ThreeByteForm | internal/wg/install_script.go:155-160 | Every value of three bytes, surrogates included, is spelled with the lead and continuation bytes of its six-bit digits |
| Regroup.RunRegroup | internal/wg/install_script.go:288-312 | The awk program computes the regrouping of the parsed lines, and prints no stanza without a key or addresses |
| Regroup.NoEmptyStanza | internal/wg/install_script.go:288-312 | No stanza without a key or without allowed addresses is printed |
| Regroup.RenderPeers | internal/wg/join-linux.sh:235-254 | The Python loop computes the stanzas of the structured peers |
| Rendering.RegroupRefinesRenderer | internal/wg/install_script.go:288-312 | For every well-formed response with bare wg_ip, non-empty pubkeys and null or non-empty extras, none with control characters or lone surrogates, regrouping the flattened file gives the structured renderer's pubkey, endpoint and AllowedIPs, in order |
| Rendering.ScriptRendersResponse | internal/wg/install_script.go:264-312 | The same from the response text on, whatever its white space and escapes |
| Encoding.EncodeRoundTrip | internal/wg/handlers.go:74-85 | The encoding of any list of ASCII peers is a well-formed response that lists exactly them |
| ConfText.CidrRoundTrip | internal/wg/alloc.go:560-573 | What the server's parser makes of a CIDR text is what a configuration reader makes of it |
| ConfText.HostTexts | internal/wg/handlers.go:410-424 | Adding /32 to an address, cutting it off and testing for a length do to its text what the string operations do |
| ConfText.EntriesOfJoin | internal/wg/join-linux.sh:250 | Splitting a joined AllowedIPs line at its commas gives its entries back |

## Left out

- HTTP and JSON binding, SQL text, metrics, logging, the admin UI and process lifecycle: plumbing.
- Interleaving inside a multi-statement handler: each handler is one atomic step, as registration is by its serializable transaction.
- The row ids that failed inserts and rolled-back transactions consume: ids in the model are consecutive.
- Randomness and SHA-256: generated secrets are fresh and the hash is injective.
- device_id and the X-Device-Id header: the row id stands for both.
- Labels, keepalive and refresh periods, policies, OS and agent fields, created-by, and the heartbeat's statistics: no property depends on them.
- White-space trimming of request fields: fields arrive trimmed, and an absent or empty field is None. The fallbacks for a hub without wg_ip or mesh_cidr (internal/wg/alloc.go:190-194, internal/wg/store.go:228-233) are therefore not modelled: no hub row is without them.
- Parsing of CIDR text: a CIDR is its address, its length and a spelling, or unparseable text. `ConfText` reads a spelling as zeros before the length, the one freedom that the parser leaves.
- wg_ip texts that are neither an address nor a CIDR count as no entry in routing decisions, which are stated for calm runs; only `Defaults` reads what a client makes of them.
- hubEndpointFor and its name resolution: endpoints are opaque texts, and that a UDP packet reaches an endpoint is not part of this model.
- The rev field of hub peer lists: equal rev does not mean equal lists, so nothing is claimed of it.
- The caller's locale: `tr` and `sed` in json_esc run in it, while the model takes [:cntrl:] as the C locale does, bytes below 32 and 127.
- Defaults.FabricDefaultIff: reads wg_ip as one line of IPv4 entries; a line break in it would end the line in the file, and IPv6 entries are not modelled.
- PersistentKeepalive and the [Interface] section: the two renderers differ there by design.
- Awk numbers above 2^53 and the pattern of records that carry more than two fields: neither occurs in flattened responses.
- DNS names, bundles, hub status polling and peer-dump parsing: they would add only easy members.
