# Peer-to-peer WireGuard without servers: a verified model

Three programs connect WireGuard peers directly over UDP. `dht/` finds peers in the BitTorrent DHT and opens a path
with a three-packet handshake (HELLO, REPLY, ACK); `tor/` and `nostr/` find them through a group onion service or
Nostr relays and learn their own public address by STUN. This project models the parts of those programs that hold
state, protocols, arithmetic and text formats, and proves properties of them over all inputs and all runs.

## How the project is laid out

| file | what it models |
|---|---|
| `Text`, `Decimal`, `Endpoint`, `HostPort`, `Base64`, `Sums` | the pieces of Go's strings, strconv, net and encoding/base64 that the programs use; sums over maps and multisets |
| `PunchPacket` | identity payloads, their merging, and the `PUNCH1` text codec |
| `PunchNode` | one node of the hole-punch protocol: each critical section as a function |
| `PunchWorld` | any number of nodes over a network that loses, duplicates and reorders; the soundness invariant |
| `PunchSafety`, `PunchComplete`, `PunchBound`, `PunchLive` | soundness and identities; completeness at quiescence; packet bound and termination; both ends confirm |
| `PeerTable` | peers, candidate endpoints, scores and the fail-over rule as values |
| `PeerRun`, `PeerFiled` | one node over whole runs against arbitrary packets, with handlers that run in any order; what they file |
| `EndToEnd` | the two joined: discovered peers end up in each other's tables |
| `Install` | which of the active endpoints WireGuard is really configured with |
| `NetState` | the same state as Go's objects, updated in place, each method proved against the functions above |
| `StunWire`, `StunParser`, `StunVectors`, `Demux`, `StunTable` | STUN messages, the parser against a specification over attribute lists, the shared socket, the transaction table |
| `WgKey`, `Uapi` | public keys as text and as VPN addresses; the UAPI text printed and read back |
| `Registry`, `Cooldown`, `Failover` | the expiring registry, the Nostr cool-down, the take-over counter |

A run is a finite sequence of events. One event is one critical section, one packet write, one channel operation, or
one act of the network, so the interleavings of the goroutines are all there. Histories (`sent`, `delivered`, `log`,
`handed`, `latest`, ...) are part of the state but no step reads them. Times are nanoseconds of a monotonic clock,
and each reading is a separate parameter. A zero `time.Time` and a nil pointer are `None`. A nil map entry is an
absent key.

## Where the code parts from its standards and its own checks

* `parseSTUNResponse` slices past the end of its buffer (`tor/stun.go:107`) when the last attribute's value is whole
  but its padding is not. The model keeps this as the outcome `OutOfRange`. `StunParser.OutOfRangeExactly` gives the
  exact condition, `StunParser.MultipleOfFourIsSafe` shows that a length field as section 6 of RFC 5389 demands
  rules it out, and `StunParser.LengthOfFive` is a message for which it happens.
* The STUN loop computes `4+aLen` in 16 bits. `StunParser.WalkAttributes` keeps that arithmetic and shows that it
  never wraps, because an attribute is only sliced after its length was compared with the bytes left.
* `handleConfirmedPeer` derives a VPN address from a key of any length (`dht/vpnaddr.go:22-31`), files its endpoint and
  makes it active, while `wgUpsertPeer` refuses a key that is not 32 bytes (`dht/wireguard.go:269`). The table then
  names an active endpoint that WireGuard was never given. `Install.InstallsExactly` gives the exact condition, and
  `Install.ShortKeyIsFiledButRefused` a key.
* The log line at `nostr/nostr_logic.go:167` slices the first eight bytes off a key that was only checked not to be
  empty, and panics on a shorter one. The model's run ends there. `Cooldown.PanicsExactly` gives the exact condition.
* `wgUpsertPeer` trims the host before it checks it (`dht/validate.go:10`), so an endpoint with a line break inside
  brackets passes and its stanza does not read back. `Uapi.StanzaReadsBackExactly` gives the exact condition. The
  endpoints that the program builds itself have no line breaks (`Uapi.EndpointKeyKeeps`).
* The handshake never compares session ids. `PunchSafety.SessionIdsMatch` shows that without forging they match anyway.

## Model

| member | source | states |
|---|---|---|
| PunchSafety.ConfirmationIsSound | dht/udp_logic.go:127-161 | In every reachable state under loss, duplication and reordering, if a has confirmed b then packets were delivered both ways: a's HELLO and b's REPLY to it, or b's HELLO, a's REPLY and b's ACK, each under one session id |
| PunchSafety.SessionIdsMatch | dht/udp_logic.go:129-132 | Though ids are never compared, every REPLY sent carries the id its receiver files the sender under, every ACK and HELLO the id its sender files the receiver under |
| PunchSafety.HandlerGetsTheIdentity | dht/udp_logic.go:134-160 | In every run each node starts exactly one handler per confirmed endpoint and hands it the identity of the node at that endpoint, blank fields dropped |
| PunchSafety.ShownFields | dht/punch_proto.go:39-60 | An identity without its blank fields is nothing when both are blank, and else has its visible fields and "" for the other |
| PunchWorld.SoundStep | dht/udp_logic.go:116-162 | Every event keeps: packets in flight are unforged, each packet sent was owed, each REPLY and ACK answers a delivered packet, each confirmation has its evidence |
| PunchWorld.SoundRun | dht/dht_logic.go:28-57 | That invariant holds after every run from the initial state |
| PunchWorld.ApplyGrows | dht/udp_logic.go:116-125 | No event removes a pending entry or changes its session id |
| PunchNode.RemoteAfterReceive | dht/udp_logic.go:117-125 | A packet changes what is held for its sender only, by merging its payload if it has one, and confirms nothing |
| PunchNode.SignalTravels | dht/udp_logic.go:104-132 | A HELLO, REPLY or ACK sent through the text codec arrives with the same kind and id, and with the payload unless that does not travel |
| PunchNode.KindsAreWritten | dht/udp_logic.go:127-148 | The three kinds are HELLO, REPLY and ACK on the wire, after PUNCH1, and no other text is one of them |
| PunchComplete.ProbesConfirmBothEnds | dht/udp_logic.go:127-162 | In a run that drops no packet between a and b, whatever it drops elsewhere, once nothing is in flight or being handled, every HELLO ever sent from a to b has made both confirm each other |
| PunchComplete.ProbesTrackedRun | dht/udp_logic.go:127-146 | After every such run a HELLO sent from a to b is in flight, being answered, answered by a REPLY in flight or being handled, or a has confirmed b and the ACK is in flight or has confirmed a |
| PunchLive.DiscoveriesConfirmBothEnds | dht/dht_logic.go:28-57 | In a run that drops no packet between two nodes and can only go on by discoveries, drops or duplication, every discovery event of one by the other has led both to confirm each other |
| PunchLive.DiscoveriesAreTried | dht/dht_logic.go:28-33 | After any run that contains a discovery of b by a, b is tried by a or already confirmed |
| PunchLive.ConfirmationStopsProbes | dht/dht_logic.go:48-55 | Once a node has confirmed an endpoint, however the run goes on, it sends it at most one more HELLO |
| PunchLive.DiscoveriesCanAlwaysSucceed | dht/udp_logic.go:127-162 | No run is a dead end: going on by nothing but the nodes' own steps and deliveries leads to a state in which every discovery event so far, between two nodes that lost no packet of each other, has made both confirm each other |
| PunchLive.CanFinish | dht/dht_logic.go:47-57 | From every state, reachable or not, such steps lead to a state with nothing left to do, in no more steps than the work left |
| PunchLive.UnansweredProberSendsAll | dht/dht_logic.go:47-57 | A prober that has stopped without a confirmation has sent all 260 probes |
| PunchBound.AtMost260Probes | dht/dht_logic.go:29-57 | In every run, with any losses and duplications, a node sends at most 260 HELLOs to an endpoint, and none to one it has not tried |
| PunchBound.HellosRun | dht/dht_logic.go:48-55 | The HELLOs sent on a link are exactly the probes its prober has used up |
| PunchBound.PacketBound | dht/udp_logic.go:127-146 | In every run all packets ever sent number at most 3 x 260 x the endpoints tried over all nodes, plus 2 for each packet the network duplicated |
| PunchBound.EveryStepIsCheaper | dht/udp_logic.go:127-161 | From any state each send, delivery, drop, look and section strictly decreases the work left and does not add to packets sent plus packets owed (3 per probe left, 2 per HELLO, 1 per REPLY) |
| PunchBound.RunsAreBounded | dht/dht_logic.go:47-57 | A run has at most 2341 steps per tried endpoint and 8 per duplication besides discoveries, under every schedule |
| PunchBound.AccountedRun | dht/dht_logic.go:29-33 | There is exactly one prober for each endpoint a node has tried |
| PunchPacket.PackRoundTrip | dht/punch_proto.go:62-101 | For kind and id without a bar, any 64-bit or absent timestamp and any payload, unpacking the packed packet gives it back, the payload absent exactly when it was absent, had both fields empty, or took over 900 bytes |
| PunchPacket.RepackStable | dht/punch_proto.go:76-101 | Whatever bytes unpack accepts, packing and unpacking the result changes nothing but a payload that does not travel |
| PunchPacket.PackSplits | dht/punch_proto.go:62-74 | A packed packet is PUNCH1, the kind, the id, the decimal timestamp or nothing, and the base64url of the payload or nothing |
| PunchPacket.UnpackExactly | dht/punch_proto.go:76-101 | Unpack accepts exactly the trimmed texts of at least four parts of which the first is PUNCH1; further parts are ignored, and a timestamp or payload that cannot be read is left out |
| PunchPacket.IdentityOnTheWire | dht/punch_proto.go:32-37 | What a node sends of itself arrives as its key and room, and as nothing if the key is blank or the payload takes over 900 bytes |
| PunchPacket.MergeInto | dht/punch_proto.go:39-60 | The field-by-field assignments compute the merge function |
| PunchPacket.MergeAssociative | dht/punch_proto.go:39-60 | Merging is associative once blank is read as absent |
| PunchPacket.MergeAllIsLastVisible | dht/punch_proto.go:48-58 | Merging a sequence of payloads keeps, field by field, the last visible value, and is nil when there is none |
| Base64.RawRoundTrip | dht/punch_proto.go:29-30 | Unpadded decoding undoes unpadded encoding on all bytes, in both alphabets (sections 4 and 5 of RFC 4648) |
| Base64.EncodesBigEndian | dht/punch_proto.go:29 | Three bytes are a 24-bit number whose four sextets, highest first, are the symbols (section 4 of RFC 4648) |
| Base64.EncodesTails | dht/punch_proto.go:29 | One or two bytes are encoded as the start of what they and zeros would be |
| Base64.TailIsCutGroup | dht/punch_proto.go:30 | The bits that two or three symbols leave over are dropped unchecked |
| Base64.SymbolsAreTheTable | dht/punch_proto.go:29-30 | The symbols are those of tables 1 and 2 of RFC 4648 |
| Base64.PaddedRoundTrip | dht/wireguard.go:262 | Padded decoding undoes padded encoding on all bytes, and takes unpadded text only if it needs no padding |
| Base64.PaddedAccepts | dht/wireguard.go:262-264 | The padded decoder takes exactly whole quanta of symbols of which the last may end in one or two '=' |
| Base64.UnpaddedAccepts | dht/punch_proto.go:30 | The unpadded decoder takes exactly the texts of symbols that leave none over |
| Decimal.FormatParse | dht/punch_proto.go:70-90 | ParseInt undoes FormatInt on every 64-bit integer |
| Decimal.ParsesMinus | dht/punch_proto.go:87 | A negative number is read exactly when it fits 64 bits |
| Decimal.ParsesPlus | dht/punch_proto.go:87 | A number with a plus sign is read exactly when it fits 64 bits |
| Decimal.ParsesUnsigned | dht/punch_proto.go:87 | A number without a sign is read exactly when it fits 64 bits |
| Decimal.ParsesDigitsOnly | dht/punch_proto.go:87 | Leading zeros are allowed, and nothing but digits after an optional sign is |
| Text.TrimsExactly | dht/punch_proto.go:77 | Trimming takes white space off both ends, and all of it |
| PeerRun.HandlersGetTheLastVisible | dht/udp_logic.go:116-158 | Against arbitrary packets, the payload handed to each handler is, field by field, the last visible value in the packets received from that endpoint up to and including the confirming REPLY or ACK |
| PeerRun.PeersStayGood | dht/udp_logic.go:43-57 | In every run each endpoint starts at most one handler; each peer's active endpoint is one of its candidates; every candidate has failure count 0 and a last success; the candidate sets of different public keys are disjoint |
| PeerRun.UnreachableBranches | dht/udp_logic.go:43-62 | At every critical section a run can reach, the update branch of addCandidate and the "no best endpoint yet" exit are not taken |
| PeerRun.HandlerFilesNewEndpoint | dht/udp_logic.go:32-44 | The key that udpAddrKey computes is the endpoint key the handler was started with, and no peer has it as a candidate yet |
| PeerRun.FailoverNeedsSilence | dht/state.go:136-164 | Along any run the active endpoint moves from a to b only in a handler of that peer, only if a's last success is more than 45 s old and b scores highest; if b is the endpoint being confirmed, nothing of the peer succeeded in the last 2 minutes |
| PeerRun.ChangesBounded | dht/udp_logic.go:48-55 | The active endpoint of a peer changes at most as often as the peer has candidates |
| PeerFiled.CandidatesAreExact | dht/udp_logic.go:12-57 | When the handlers started have run, an endpoint is a candidate of a public key exactly when it is confirmed and the payload merged for it carries that key and the node's room or none |
| PeerFiled.FiledExactlyRun | dht/udp_logic.go:143-158 | At every moment each handler started is either waiting or done, nothing else waits, and the candidates are exactly the introductions of those done |
| EndToEnd.DiscoveredPeersAreFiled | dht/udp_logic.go:12-162 | From discovery to the peer table: when a run is finished, no packet between two nodes was dropped, the run contains a discovery of one by the other, and the handlers have run in any order, each has the other's endpoint filed under the other's public key and under no other |
| EndToEnd.WorldNode | dht/udp_logic.go:116-162 | The protocol state of a node among many is that of the node by itself under the events that happen at it |
| EndToEnd.HandlersCanRun | dht/udp_logic.go:143-158 | Whatever happens in the world, the handlers a node started can all run, and bestCandidateKey has a result in each |
| PeerFiled.AdmitExactly | dht/udp_logic.go:13-38 | The exits before the critical section let a handler through exactly when room, key, derived address and port are right, and then with that address, the sender's key and a fresh entry for it |
| PeerTable.FailoverRule | dht/state.go:136-164 | In a good table one critical section changes the active endpoint only after more than 45 s of silence and to a best candidate, keeps it otherwise, and sets the first one to the best |
| PeerTable.BestExists | dht/state.go:108-134 | In a good table with the endpoint added, the best candidate is not "" |
| PeerTable.BestIsMostRecent | dht/state.go:113-131 | Among candidates without failures, the best one succeeded within 30 s if any did, and within 2 minutes if any did |
| PeerTable.FailuresCost | dht/state.go:114-125 | A success counts 50 within 30 s and 10 within 2 minutes, and each failure costs 20 |
| PeerTable.SwitchExactly | dht/state.go:136-164 | The rule holds if and only if the new endpoint is named and not active, and either none is active, or it is a candidate and the active one is unknown, never succeeded, or is silent for more than 45 s |
| PeerTable.AllowedIsSetOnce | dht/state.go:79-93 | A peer is created with its allowed ip, which is filled only while empty; nothing else changes |
| PeerTable.AddedAgain | dht/state.go:95-106 | A known endpoint gets the new address and time and keeps its successes and failures |
| PeerTable.ConfirmedKeepsTable | dht/udp_logic.go:43-57 | A critical section keeps the table good, touches one peer only, and adds exactly the confirmed endpoint, marked as succeeded |
| NetState.NetState.GetOrCreatePeer | dht/state.go:79-93 | The peer returned is the one filed under the key, created when absent, its allowed ip filled when empty; no other peer changes |
| NetState.NetState.AddCandidate | dht/state.go:95-106 | In place: a new key is filed, a known one keeps its successes and failures and gets the new address and time |
| NetState.NetState.BestCandidateKey | dht/state.go:108-134 | The loop, in any order over the map, returns a candidate of maximal score if that is at least 0, else "" |
| NetState.NetState.ShouldSwitchEndpoint | dht/state.go:136-164 | The branches decide the switch rule |
| NetState.NetState.MarkSuccess | dht/state.go:166-177 | In place: exactly the named candidate of the named peer gets the time and failure count 0 |
| NetState.NetState.ConfirmPeer | dht/udp_logic.go:43-57 | The critical section, in this order: add, look up, find best, switch by the rule, mark; the whole new table, and nothing of the protocol state |
| NetState.NetState.HandleConfirmedPeer | dht/udp_logic.go:12-74 | A handler changes the table as one handler step of a run does, asks wgUpsertPeer for the best endpoint exactly when that has just become active, and configures what Uapi.EntryExactly says, or nothing |
| Install.InstallsExactly | dht/wireguard.go:275-306 | At every critical section a run can reach, what the handler asks of wgUpsertPeer succeeds if and only if the announced key decodes to 32 bytes; it then configures that key, its own VPN address and the best endpoint, which is the active one if it was switched |
| Install.AllowedRun | dht/state.go:79-93 | In every run each peer's allowed ip is the one derived from its own key |
| Install.ShortKeyIsFiledButRefused | dht/vpnaddr.go:21-39 | A concrete key of three bytes is admitted, filed and made active although wgUpsertPeer refuses it |
| Install.FitRun | dht/state.go:69-76 | In every run each candidate is filed under the text of its own IPv4 address and port |
| NetState.NetState.Register | dht/udp_logic.go:116-125 | First section of an iteration: creates the entry if there is none, merges the payload if there is one |
| NetState.NetState.ConfirmEndpoint | dht/udp_logic.go:134-161 | Second section: marks the endpoint and starts a handler with what is held for it, the first time only |
| NetState.NetState.HandlePacket | dht/udp_logic.go:116-162 | A whole iteration: HELLO is answered with REPLY and REPLY with ACK under the same id, REPLY and ACK confirm the sender, the first confirmation starts a handler with what is held then; what is held changes for the sender only |
| NetState.NetState.HandleDiscovered | dht/dht_logic.go:12-45 | A discovery is probed if and only if it is IPv4 with a valid port, not the node itself, and neither confirmed nor tried; it is then tried, and the session id is the one it is filed under, fresh if it was not filed |
| NetState.ProbeLoop | dht/dht_logic.go:47-57 | The loop sends one probe per look that finds no confirmation and stops at the first that does, or after 260 |
| Endpoint.EndpointKeyInjective | dht/state.go:69 | Distinct IPv4 endpoints have distinct keys |
| Endpoint.To4Exactly | dht/state.go:58 | IPv4 addresses are exactly four bytes, or those four in order after ten zeros and two 255s |
| Endpoint.KeysAreWritten | dht/state.go:69 | A key is the four numbers in order with dots, a colon and the port |
| StunParser.BuildSTUNRequest | tor/stun.go:45-52 | The buffer filled in place is 00 01 00 00 21 12 a4 42 and the transaction id (section 6 of RFC 5389) |
| StunParser.ParseSTUNResponse | tor/stun.go:55-114 | The checks and the loop compute the specification function on every byte string |
| StunParser.WalkAttributes | tor/stun.go:78-108 | The loop over the shrinking slice, with 16-bit bounds that never wrap, computes the recursive walk and terminates |
| StunParser.ParserMeetsSpecification | tor/stun.go:55-113 | On every binding response made of any encoded attributes with the padding of section 15 of RFC 5389, the parser finds the last IPv4 XOR-MAPPED-ADDRESS with the XOR undone (section 15.2), else the first IPv4 MAPPED-ADDRESS (section 15.1), else an error, whatever foreign attributes stand between |
| StunVectors.SampleResponse | tor/stun.go:88-95 | The bytes of the mapped address in the sample response of section 2.2 of RFC 5769 are parsed to 192.0.2.1 and port 32853 |
| StunVectors.XorMappedResponse | tor/stun.go:88-95 | A response of literal header bytes with attribute 0020 yields its port and address masked with 2112 and 2112a442 |
| StunVectors.MappedResponse | tor/stun.go:97-103 | A response of literal header bytes with attribute 0001 yields its port and address as they stand |
| StunVectors.HeaderErrorsExactly | tor/stun.go:56-75 | Which error a packet gives, as conditions on its bytes |
| StunParser.Decompose | tor/stun.go:78-108 | Every byte string is such attributes followed by a tail that stops the loop or cuts a padding short |
| StunParser.OutOfRangeExactly | tor/stun.go:71-107 | The slice of line 107 is out of range if and only if the header checks pass, the declared length fits, and the declared bytes are whole attributes followed by one whose padding is cut |
| StunParser.MultipleOfFourIsSafe | tor/stun.go:106-107 | With a length field that is a multiple of four, as section 6 of RFC 5389 demands, no slice is out of range |
| StunParser.LengthOfFive | tor/stun.go:106-107 | A concrete response for which it is |
| StunWire.XorTwice32 | tor/stun.go:92-93 | The bitwise exclusive-or with the cookie undoes itself on 32-bit words |
| StunTable.QueriesGetTheirOwn | tor/stun.go:124-196 | In every interleaving the table holds exactly the open queries, and what a query took can only fail in its attributes, not in the header checks |
| StunTable.AtMostOnePacket | tor/stun.go:190-195 | A query consumes at most one packet |
| StunTable.QueryTakesTheFirstResponse | tor/stun.go:132-195 | In every interleaving a query takes exactly the first response the read loop reads for it; while it waits, the packet is in its channel as soon as the read loop has moved on, so no response is lost and none is taken out of turn |
| StunTable.ResponseFindsItsQuery | tor/stun.go:133-149 | A response to an open query is always found to be for that query, whoever else is asking |
| StunTable.ResponseReachesItsQuery | tor/stun.go:145-192 | Whatever else happens, if the first packet read for a query is a response made of any attributes, the query ends with what those attributes mean or gives up |
| StunTable.GoodRun | tor/stun.go:145-184 | Packets held by the reader, in channels or taken by queries all carry the id of their query, in every reachable state |
| StunTable.StunRxTable.Deliver | tor/stun.go:132-158 | Claims exactly the binding responses to registered ids, and at most fills the one channel registered |
| StunTable.StunRxTable.Query | tor/stun.go:171-196 | Given the packets delivered before the time is up, a query returns what the first one with its id says, and leaves no trace in the table |
| Demux.WireGuardExactly | dht/udp_wireguard_demux.go:15-32 | A packet goes to WireGuard if and only if it starts with 1, 2, 3 or 4 and three zeros and has at least 148, 92, 64 or 32 bytes |
| Demux.BindingResponsesReachTheTable | tor/udp_logic.go:31-45 | No binding response is taken for WireGuard traffic; exactly the packets of 20 bytes or more with 01 01 and 21 12 a4 42 in their places reach the table |
| Demux.PunchPacketsAreNotWireGuard | dht/udp_logic.go:93-104 | Nothing that unpack accepts, leading white space included, is taken for WireGuard traffic |
| WgKey.AcceptedDecodes | dht/config.go:17 | Every string matching reWgPub decodes to exactly 32 bytes, whose encoding it is, and is turned into the 64 hexadecimal digits that read back as those bytes |
| WgKey.AcceptedExactly | dht/config.go:17 | The strings matching reWgPub are exactly the encodings of 32 bytes, with or without the final '=' |
| WgKey.HexExactly | dht/wireguard.go:257-273 | For any text, which error the conversion gives, and else 64 digits that read back as the decoded bytes |
| WgKey.HexReadsBack | dht/wireguard.go:272 | Hexadecimal, high digit first, reads back as the bytes |
| WgKey.DecodesEither | dht/wireguard.go:262-264 | Any bytes are decoded from their encoding, padded or not |
| WgKey.OneTextPerKey | dht/config.go:17 | Every 32-byte key has one accepted text of 43 characters and no other |
| WgKey.SameHexExactly | dht/wireguard.go:257-273 | Two accepted keys give the same hex if and only if they differ at most in the final '=' |
| WgKey.DeriveVPNAddr | dht/vpnaddr.go:21-39 | The buffer filled in place is, byte by byte, 0xfd, five bytes of the room's hash, ten of the key's |
| WgKey.DeriveVPNPrefix | dht/vpnaddr.go:42-48 | The room's prefix is 0xfd, five bytes of its hash and zeros, of 48 bits |
| WgKey.AcceptedAddresses | dht/vpnaddr.go:21-48 | Every accepted key has an address that starts with the six bytes of the room's /48, and keys that differ at most in the final '=' have the same one |
| Uapi.ParseWGUAPI | dht/wireguard.go:30-78 | The loop that writes records in place through the current pointer reads what the line-by-line specification reads |
| Uapi.EntryExactly | dht/wireguard.go:275-305 | A call succeeds exactly when its key has 32 bytes and its address and endpoint pass, and prints the hexadecimal of those bytes and the trimmed address and endpoint |
| Uapi.StanzaText | dht/wireguard.go:296-305 | The five lines of a stanza as they are written |
| Uapi.PrintThenParse | dht/wireguard.go:275-306 | Reading back what any sequence of successful calls without line breaks in endpoints printed yields, for the last call of each key, that key, endpoint and address and keepalive 25; and no record that no call asked for |
| Uapi.SecondsLineSets | dht/wireguard.go:57-62 | The line of seconds sets that field and no other, and only to a 64-bit number |
| Uapi.NanosecondsLineSets | dht/wireguard.go:63-68 | The line of nanoseconds sets that field and no other |
| Uapi.KeepaliveLineSets | dht/wireguard.go:69-74 | The keepalive line sets that field and no other |
| Uapi.EndpointLineSets | dht/wireguard.go:49-52 | The endpoint line sets that field to its trimmed value, and no other |
| Uapi.AllowedLineAdds | dht/wireguard.go:53-56 | The allowed ip line adds its trimmed value, and changes nothing else |
| Uapi.KeyLineStarts | dht/wireguard.go:45-48 | A key starts a new record, files it, and forgets the one before |
| Uapi.IgnoredLines | dht/wireguard.go:36-55 | Fields before the first key, other keys, blank lines and lines without '=' change nothing |
| Uapi.StanzaReadsBackExactly | dht/wireguard.go:286-305 | A printed stanza reads back as the peer it configures if and only if its endpoint has no line break |
| Uapi.SomeEndpointsBreak | dht/wireguard.go:286-294 | For every IPv4 address and port there is an endpoint text with a line break that passes the checks |
| Uapi.EndpointsExactly | dht/wireguard.go:286-294 | Exactly which endpoint texts pass the checks |
| Uapi.EndpointKeysAreValid | dht/wireguard.go:286-294 | The endpoints the program builds itself pass the checks exactly when the port is from 1 to 65535 |
| HostPort.SplitHostPortExactly | dht/wireguard.go:287 | SplitHostPort accepts exactly a host and a port around a colon, the host in brackets or without colons, and takes them apart |
| HostPort.SplitUndoesJoin | dht/wireguard.go:287 | SplitHostPort undoes JoinHostPort for every host without brackets |
| HostPort.ParseIPv4Exactly | dht/validate.go:9-12 | The dotted texts accepted are exactly the printed IPv4 addresses, without leading zeros |
| Uapi.LastEntriesExactly | dht/wireguard.go:296-305 | That map has exactly the keys printed, each with its last endpoint, its single allowed ip, no handshake, and keepalive 25 |
| Uapi.ReadsStanza | dht/wireguard.go:44-75 | From any state of the reader, a stanza replaces the record of its key by exactly what it says |
| Registry.ListingsAreRight | tor/onion_server.go:37-70 | In every interleaving a listing returns every endpoint whose latest upsert is less than the time to live old at lock time and none whose latest upsert was older at the listing's own clock reading; exactly the unexpired ones when reading and locking are one step |
| Registry.ListingsAreRecorded | tor/onion_server.go:44-55 | The times and the latest upserts by which a listing is judged are those of the run |
| Registry.SweepsExactly | tor/onion_server.go:57-69 | A sweep removes exactly what had expired at its own clock reading |
| Registry.SweepsAreInvisible | tor/onion_server.go:44-70 | Removing all sweeps from any run leaves a possible run with the same listings, each of which returns what it did before, and beyond that only registrations that expired after its own clock reading and by the time it held the lock |
| Registry.SweepsAreInvisibleToPromptListings | tor/onion_server.go:44-70 | A listing that reads and locks in one step returns the same with and without sweeps |
| Registry.KeyIdentifiesEndpoint | tor/onion_server.go:38 | Two registrations replace each other exactly when address and port agree |
| Registry.PeerRegistry.Upsert | tor/onion_server.go:37-42 | Files the registration with its expiry under its endpoint |
| Registry.PeerRegistry.List | tor/onion_server.go:44-55 | The loop returns each unexpired registration exactly once |
| Registry.PeerRegistry.Sweep | tor/onion_server.go:57-69 | Deleting while ranging leaves exactly the unexpired entries |
| Cooldown.AcceptancesAreSpaced | nostr/nostr_logic.go:146-168 | For each public key, across all relays, acceptances are more than 5 minutes apart, and an event is accepted if and only if it has an address, a port and a key that is not the node's own and was not accepted in the last 5 minutes |
| Cooldown.PanicsExactly | nostr/nostr_logic.go:146-167 | A run has panicked if and only if its last event passed the filters and the cool-down with a key of less than 8 bytes, and no event before it did |
| Cooldown.ShortKeyPanics | nostr/nostr_logic.go:167 | A concrete first event for which it does |
| Cooldown.ProperKeysAreSafe | nostr/nostr_logic.go:167 | A key of the shape of reWgPub never causes it |
| Cooldown.WindowBound | nostr/nostr_logic.go:156-164 | A window of length L holds at most L / 5 min + 1 acceptances of a key |
| Cooldown.Seen.Admit | nostr/nostr_logic.go:156-162 | The section under the lock decides by the first clock reading and stamps with the second |
| Failover.FailoverAccounting | tor/tor_logic.go:354-387 | In every run 3 x (attempts + recoveries seen after the jitter) + counter is at most the number of rounds in which both requests failed |
| Failover.CounterStaysSmall | tor/tor_logic.go:357-385 | Between rounds the counter is at most 2 unless a jitter wait was cancelled |
| Failover.CounterCountsTheStreak | tor/tor_logic.go:354-390 | The counter is exactly the number of failed rounds since the last round that succeeded or decided |
| Failover.AttemptsNeedThreeFailures | tor/tor_logic.go:354-385 | A decision stands on three failed rounds in a row that no other decision used |
| Failover.Bootstrap.DoRound | tor/tor_logic.go:340-391 | One round's effect on the counter, on every path |

## Left out

- main.go of the three programs, static_onion.go, TUN devices, routes, subprocesses, environment and files: plumbing.
- The DHT library, the Nostr relays, Tor's SOCKS proxy and HTTP: they appear as events that may happen at any time.
- Cross-machine uniqueness of the onion host: probing and then listening does not establish it.
- Agreement between the WireGuard device and the active endpoint under overlapping handlers: installing and recording
  are separate steps. The methods say what one handler configures; the device is not part of this model.
- NAT and its translation: a node is identified with the endpoint its packets come from. In `PunchWorld` the sender
  of a packet cannot be forged; in `PeerRun` any packet may come from anywhere.
- A failed WriteToUDP: to the receiver it is a loss, so it is the event `Drop` after the write.
- The WireGuard side of the sockets, the queue of the DHT library's packets, and log output.
- Strength of SHA-256, ed25519 and random ids: the hash is a parameter, and a new transaction id is assumed not to be
  in use by an open query. Session ids are arbitrary, so no property depends on their being random.
- The bytes of a packet inside `PunchWorld`: packets there are values, and `PunchNode.SignalTravels` says what the text
  codec does to one. A node whose payload is too long to travel is a node with the identity `None`.
- JSON: a pair of functions, of which the codec results assume that decoding undoes encoding and that only the
  payload without fields encodes to two bytes.
- Text that is not valid UTF-8: text is a sequence of code points.
- The clock's range: times are unbounded integers, so the saturation of time.Duration does not occur.
- The text of IPv6 addresses (vpnAddrCIDR) and the validity check of prefixes: parameters, of which `Uapi` assumes that
  no accepted prefix has a line break, and `Install` that the texts of derived addresses are accepted.
- IPv4 addresses written in IPv6 form, which net.ParseIP also takes for IPv4: a parameter of `Uapi`.
- NetState.NetState.Register: pendingState is kept as a value in its map. Only its map refers to it, so updating the
  entry is updating the object. FirstSend is written and never read, and is not kept.
- Failover.Bootstrap.DoRound: whether an attempt made the peer the server is not kept; the counter is reset either way.
- The copies of the STUN code in nostr/ and of the WireGuard, address and validation code in nostr/ and tor/: the same
  logic, modelled once.
- The rest of validate.go, wg status output and the parsing of private keys: single-branch checks.
- isLocallyReachable and the case split in punchAndConnect: they depend on the host's interfaces.
- testing/: benchmark scripts.
