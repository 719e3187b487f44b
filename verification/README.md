# A verified model of go-openvswitch

This project models the parts of go-openvswitch where being right is hard, and proves what
they promise:

- the compiler from port ranges to (value, mask) pairs, and the way of its output through
  flow text and back (`Bits`, `PortRange`, `PortCover`, `PortSize`, `RangeText`);
- the text language of flows, with printers and parsers for matches, actions, action lists
  and whole flows (`Text`, `Numerals`, `NumeralReading`, `Matches`, `MatchParser`,
  `MatchRoundTrip`, `FlagLists`, `MatchFragment`, `MatchNames`, `Actions`, `ActionParser`,
  `ActionScans`, `ActionRoundTrip`, `ActionNames`, `ActionList`, `Flows`, `FlowPrinting`,
  `FlowRoundTrip`, `FlowDump`, `FlowStatistics`, `MatchFlows`, `MatchFlowReading`);
- the OVSDB client as a concurrent protocol over JSON-RPC 1.0, as section 4.1 of RFC 7047
  uses it (`RpcProtocol`, `RpcInvariant`, `RpcSafety`, `RpcDelivery`, `RpcShutdown`,
  `RpcCallers`, `RpcBlocking`, `RpcEcho`, `RpcClient`);
- flow transactions, the line-grouping scanner and the reading of connection tracking limits
  (`FlowTransactions`, `GroupedScan`, `CtLimits`).

`dafny verify dfyconfig.toml` checks everything.

## How the model is built

Code that changes state step by step is a class or a method with loops, proved against a
function that says what it computes; the theorems are about those functions. `Flow`,
`MatchFlow`, `ActionReader`, `FlowTransaction`, `Scanner` and `Client` carry the fields of the
Go types they stand for. Errors are results, and what Go answers with a panic is an outcome of
its own.

The client is a state machine whose events are the atomic steps of any number of calls, of
`listen`, `echoLoop`, `echoTicker` and of `Close`. `select` is a choice among ready cases. The
mutex is held across steps only inside `doCallback`, the one critical section that can wait.
After `Close` has closed the connection, a finite number of buffered messages is still
received, then a closed-network error. A message that is no echo request carries an ID, as
`listen` dereferences it. `RpcClient` ties the methods on the counter and the map to the steps
of the state machine.

Go's `net` functions on addresses are a parameter, `Net`; `math.Log2` is the integer
logarithm; each regular expression and `Sscanf` pattern is written out as the scan it performs.

## What the code does differently from what one may expect

- `Add` and `Delete` are documented as doing nothing if any of their flows is invalid
  (`ovs/openflow.go:78-80`, `ovs/openflow.go:94-96`). They keep the flows before the invalid
  one, so they do nothing exactly if the first one is invalid, there is none, or an error was
  recorded before (`FlowTransactions.AddIsNoOpExactly`, `FlowTransactions.DeleteIsNoOpExactly`,
  `FlowTransactions.PartialAdd`, `FlowTransactions.PartialDelete`). The recorded error then
  stops every later push and Commit.
- A Commit does not freeze a transaction: flows pushed later are written as well, a later
  Discard empties the bundle, and a later failure is not reported. What is written stays the
  same exactly if nothing is pushed later or the first such push fails, as long as there is no
  later Discard (`FlowTransactions.AfterCommit`, `FlowTransactions.CommitDoesNotFreeze`).
- Removing default lines while ranging is right exactly when no two of them touch, a default
  line at the end is the only one, and each holds a number (`CtLimits.RemovalExactly`,
  `CtLimits.AnswerExactly`). Of two that touch, the second becomes the record of a zone
  (`CtLimits.TouchingDefaultsAnswer`).
- An answer of `ovs-dpctl` that is empty, or has a blank line inside, makes the zone loop panic
  (`CtLimits.EmptyAnswerPanics`, `CtLimits.BlankLinePanics`).
- A negative number passes `parseClampInt` and wraps around in an unsigned field; a decimal
  number in a field with a mask has no bound at all (`MatchFragment.IntTextReads`,
  `MatchFragment.PortTextReads`, `MatchFragment.MaskedTextReads`,
  `MatchFragment.NegativeNumbersWrap`).
- `all`, `set_tunnel`, `multipath`, `learn` and output to a field print, but do not parse back
  (`ActionRoundTrip.SurvivesExactly`). The port range code never needs its right remainder
  (`PortRanges.BitwiseMatch`).
- `drop` beside another action is refused in lower case only: `DROP` is read as the same action
  and accepted, and the flow that comes out does not print (`FlowDump.CapitalDrop`,
  `FlowPrinting.FlowPrintsExactly`).
- A match whose key has white space around it is dropped, while the fields of a flow may have
  it (`ovs/flow.go:335`, `ovs/flow.go:429`; `FlowStatistics.MatchReadExactly`,
  `FlowStatistics.SpacedPair`).
- Before `Close`, `listen` and `echoLoop` can wait for each other for ever
  (`RpcBlocking.StuckIsReachable`). If the server ends the connection, `listen` exits, and
  every call that waits for its reply, `echoLoop`'s among them, waits until its own context is
  done (`RpcBlocking.OrphanedIsReachable`, `RpcCallers.OnlyContextEndsWait`).

## Model

| member | source | states |
|---|---|---|
| `PortRanges.GetMask` | ovs/portrange.go:114-117 | the mask of a block of 2^k ports is 2^16 - 2^k, for every k the code can reach |
| `PortRanges.GetRange` | ovs/portrange.go:119-130 | the block of 2^k ports around an end begins at the end rounded down and spans 2^k ports, without wrap-around |
| `PortRanges.WindowAttempt` | ovs/portrange.go:65-69 | a block never ends before the range does; it ends with it or the block size must shrink |
| `PortRanges.FindWindow` | ovs/portrange.go:59-69 | the shrinking loop stops at the largest aligned block that fits, which ends exactly at the end of the range; bitLength never underflows |
| `PortRanges.BlockBitsFit` | ovs/portrange.go:65-69 | the chosen block is aligned and lies inside the range |
| `PortRanges.BlockBitsMaximal` | ovs/portrange.go:59-69 | no larger aligned block ending at the end of the range fits into it |
| `PortRanges.BitwiseMatch` | ovs/portrange.go:43-112 | succeeds exactly when 0 < Start <= End and then returns Cover(Start, End); the recursive call on the left remainder never fails and the right remainder is never needed |
| `Bits.OperatorBits` | ovs/portrange.go:114-130 | the model's and, and-not and xor work bit by bit |
| `PortCover.ExactCover` | ovs/portrange.go:41-112 | each port in the range satisfies p & Mask == Value for exactly one entry, each other port for none |
| `PortCover.MaximalBlocks` | ovs/portrange.go:59-95 | every prefix-mask block inside the range lies inside one entry |
| `PortCover.OwnValue` | ovs/portrange.go:71-74 | each entry's value is itself a port of the range that the entry accepts |
| `PortCover.Minimal` | ovs/portrange.go:41-112 | no family of prefix-mask pairs whose union is exactly the range has fewer members than the returned list |
| `PortCover.CoverIsFamily` | ovs/portrange.go:114-117 | the returned list is itself such a family, so the minimum is reached |
| `PortCover.EntryMask` | ovs/portrange.go:71-74 | every entry has a prefix mask with at least its top bit set |
| `PortSize.Layout` | ovs/portrange.go:80-95 | the entries are blocks of 2^k ports lying side by side, ascending, from Start to End |
| `PortSize.RisingPart` | ovs/portrange.go:65-69 | while blocks are limited by the window, their sizes strictly grow towards the right |
| `PortSize.Shape` | ovs/portrange.go:59-95 | block sizes first strictly rise and then strictly fall along the list, for every range |
| `PortSize.SizeBound` | ovs/portrange.go:43-112 | no valid range needs more than 30 entries |
| `PortSize.BoundReached` | ovs/portrange.go:43-112 | the range 1 to 65534 needs exactly 30 |
| `RangeText.MaskedPorts` | ovs/match.go:991-1014 | fails exactly on an invalid range, and otherwise returns one match for each entry, in order, with the protocol and the direction of the ranger and the entry's value and mask |
| `RangeText.NoMaskIsZero` | ovs/match.go:1078-1101 | no entry of a valid range has mask 0, which would print as one exact port |
| `RangeText.EntrySurvivesText` | ovs/match.go:1601-1619 | each match prints in the masked form behind tp_src=, tp_dst=, udp_src= or udp_dst=, as the ranger says, and its text parses back to the same match |
| `RangeText.AcceptingIsHits` | ovs/match.go:1601-1619 | the matches accept a packet as often as the entries accept its source port, or destination port, as the ranger says |
| `RangeText.RangeSurvivesText` | ovs/match.go:1078-1101 | for all four range constructors, printing and re-parsing gives the same list, and exactly one match accepts a packet whose source, or destination, port is in the range, none any other packet |
| `Text.SplitJoin` | ovs/flow.go:301-315 | splitting at a character undoes joining parts that do not contain it |
| `Text.JoinSplit` | ovs/flow.go:315 | joining undoes splitting, for every text |
| `Text.TrimAround` | ovs/flow.go:312 | trimming takes off any white space around a text that has none at its ends, and nothing else |
| `Text.AsciiSpaces` | ovs/flow.go:312 | of ASCII, white space is the space and the five characters from tab to carriage return |
| `Numerals.ParsePaddedHex` | ovs/matchparser.go:558-578 | a hexadecimal numeral, padded or not, reads back as its number |
| `Numerals.ParseFormatInt` | ovs/matchparser.go:120-130 | a printed 64-bit integer reads back as itself |
| `Numerals.DigitsInjective` | ovsdb/client.go:158-162 | different request numbers have different decimal texts |
| `NumeralReading.DigitsRead` | ovs/matchparser.go:558-578 | decimal or hexadecimal digits, in either case, are read as their positional value, or are out of range |
| `NumeralReading.OnlyDigitsRead` | ovs/matchparser.go:558-578 | nothing but digits is read as a number |
| `NumeralReading.SignedRead` | ovs/matchparser.go:118-130 | a plus sign changes nothing, a minus sign negates, and a number beyond 64 bits is refused |
| `NumeralReading.AnyIntReads` | ovs/matchparser.go:118-130 | every printed integer reads back, or is refused with the bound it lies beyond |
| `NumeralReading.AnyBaseReads` | ovs/flow.go:347-358 | a cookie or counter is hexadecimal behind 0x or 0X, binary behind 0b or 0B, octal behind 0o, 0O or 0, decimal otherwise |
| `NumeralReading.UnderscoreBetween` | ovs/flow.go:347-358 | an underscore between two digits, or between 0x and a digit, changes nothing |
| `NumeralReading.UnderscoreMisplaced` | ovs/flow.go:347-358 | two underscores in a row, one at the end, and one in front of a decimal number are refused |
| `MatchParser.ParseMaskedLoop` | ovs/matchparser.go:343-372 | the loop over the parts of a masked number, with its error cases, computes ParseMasked |
| `MatchParser.ParsePortLoop` | ovs/matchparser.go:180-225 | the loop over port and mask, with its error cases, computes ParsePort |
| `MatchParser.ChunkLoop` | ovs/matchparser.go:285-297 | the buffer loop cuts the text into pieces of four characters |
| `MatchParser.ParseTcpFlagsMethod` | ovs/matchparser.go:275-299 | a number is kept as it is, a length not divisible by four is refused, any other text is cut into pieces of four |
| `MatchRoundTrip.KeySound` | ovs/matchparser.go:28-116 | the dispatch takes a text for a key only if it is that key's own text |
| `MatchRoundTrip.KeyRoundTrip` | ovs/matchparser.go:28-116 | for every key of the dispatch, no other case captures its text |
| `MatchRoundTrip.MaskedRoundTrip` | ovs/matchparser.go:343-439 | a value and mask, 0 being left out, print and parse back to the same pair for every field width and padding |
| `MatchRoundTrip.ParseHexText` | ovs/matchparser.go:558-578 | a number in range printed after 0x reads back as itself in each of the three widths |
| `MatchRoundTrip.PortRoundTrip` | ovs/matchparser.go:180-225 | a port and mask print and parse back to the same pair |
| `MatchRoundTrip.FormatIntText` | ovs/match.go:1601-1619 | a printed integer holds no separator of the flow syntax and does not look hexadecimal |
| `FlagLists.SpaceStates` | ovs/matchparser.go:259-263 | putting a space before each sign turns joined states into states joined by spaces |
| `FlagLists.CtStateRoundTrip` | ovs/matchparser.go:249-272 | every nonempty list of signed states parses back from its text |
| `FlagLists.CtStatesExactly` | ovs/matchparser.go:249-272 | a list of states parses back from its text if and only if each is a sign and a name, where the first of several may lack its sign |
| `FlagLists.BarForm` | ovs/matchparser.go:249-256 | names joined by bars, or one bare name, parse to the same states as the form with a plus sign before each |
| `FlagLists.TcpFlagsRoundTrip` | ovs/matchparser.go:275-299 | every nonempty list of signed three-letter flags parses back from its text; in particular two or more of them never read as a number |
| `FlagLists.TcpFlagsExactly` | ovs/matchparser.go:275-299 | a list of flags parses back from its text if and only if it is one number, one empty flag, or flags of four characters that together are no number |
| `MatchFragment.ParsesBackExactly` | ovs/matchparser.go:28-116 | a printable match parses back from its own text if and only if ParsesBack holds: within the upper bound, canonical address, flag lists as above, and none of the kinds the parser maps elsewhere or drops |
| `MatchFragment.IntTextReads` | ovs/matchparser.go:118-178 | for every 64-bit integer, its text is an error if it is beyond the upper bound of the key and is read otherwise; the number is kept if and only if it is not negative or the field is signed |
| `MatchFragment.PortTextReads` | ovs/matchparser.go:180-225 | the same of a bare port: an error beyond 65535, kept if and only if not negative |
| `MatchFragment.MaskedTextReads` | ovs/matchparser.go:343-439 | a decimal number in a field with a mask is never an error, and is kept if and only if it fits the field |
| `MatchFragment.NegativeNumbersWrap` | ovs/matchparser.go:120-130 | -1 is read as ICMP type 255, as port 65535 and as connection mark 0xffffffff |
| `MatchNames.AddressKeys` | ovs/matchparser.go:44-104 | the keys of IPv4 and hardware addresses keep their value as it stands; tun_src and tun_dst read as network addresses |
| `MatchNames.Ipv6Keys` | ovs/matchparser.go:64-93 | the same of IPv6 keys; tun_ipv6_src and tun_ipv6_dst read as IPv6 addresses |
| `MatchNames.HardwareKeys` | ovs/matchparser.go:228-247 | arp_sha, arp_tha, nd_sll and nd_tll read a hardware address or are refused |
| `MatchNames.UnsignedKeys` | ovs/matchparser.go:32-44 | the ICMP keys and nw_proto take numbers up to 255, ct_zone up to 65535, conj_id up to 4294967295, into a field of that width |
| `MatchNames.SignedKeys` | ovs/matchparser.go:66-82 | the eight other integer keys take numbers up to 2147483647 as they are |
| `MatchNames.HexKeys` | ovs/matchparser.go:303-341 | a hexadecimal number of up to 32 bits is read under dl_type, dl_vlan, dl_vlan_pcp and arp_op, where its low 16 bits are kept |
| `MatchNames.DecimalKeys` | ovs/matchparser.go:303-341 | decimal numbers under dl_vlan and dl_vlan_pcp have no bound, arp_op refuses more than 16 bits, in_port more than 2147483647 |
| `MatchNames.ThreePartsRefused` | ovs/matchparser.go:360-372 | a third part behind a number and its mask is refused |
| `MatchNames.BadPartRefused` | ovs/matchparser.go:343-360 | a part that is no number is refused on either side of the slash |
| `MatchNames.LargePortRefused` | ovs/matchparser.go:198-215 | a hexadecimal port or mask beyond 16 bits is refused |
| `MatchNames.PrintsExactly` | ovs/match.go:206-250 | the matches that check their value print exactly within their bounds: VLAN 0 to 4095 or none, priority 0 to 7, flow label 20 bits, ARP operation 1 to 4, Ethernet addresses of six bytes |
| `MatchNames.AddressesPrint` | ovs/match.go:1541-1590 | an IP address or block prints under its own key if and only if it is one |
| `MatchNames.DlTextMeans` | ovs/match.go:135-165 | a hardware address and the mask behind its first slash both print in canonical form, and both must be Ethernet addresses |
| `MatchNames.PaddingMeans` | ovs/match.go:1141-1215 | padding fills up with zeros on the left and never cuts |
| `MatchNames.PrintedWidths` | ovs/match.go:1141-1215 | vlan_tci prints with four hexadecimal digits, ipv6_label with five, ct_mark with eight, metadata and tun_id with as many as needed |
| `MatchNames.MaskedOrder` | ovs/match.go:1141-1215 | the value prints in front of the slash and the mask behind it; mask 0 is left out |
| `MatchNames.OtherKeys` | ovs/matchparser.go:28-116 | the keys of the fields with a mask and of the flag lists, by name |
| `MatchFragment.MatchRoundTrips` | ovs/matchparser.go:28-116 | every match of the fragment, flag lists included, parses back from its text, and the text is safe inside a flow |
| `ActionScans.ScanIntText` | ovs/actionparser.go:293-313 | scanning a printed integer gives it back together with the text behind it |
| `ActionScans.ScanConjunctionText` | ovs/actionparser.go:304-314 | the three printed numbers of a conjunction are scanned back |
| `ActionScans.ScanPortText` | ovs/actionparser.go:268-290 | every 16-bit port is scanned back |
| `ActionScans.WordRoundTrip` | ovs/actionparser.go:175-190 | each action word is recognised as itself, and all is not recognised |
| `ActionScans.LeadRoundTrip` | ovs/actionparser.go:201-326 | no prefix test tried earlier captures a text that begins with a later prefix |
| `ActionRoundTrip.ParserProduces` | ovs/actionparser.go:175-393 | whatever the text, only these actions come out: never all, output:field or set_tunnel, no negative resubmit, no blank or inner arrow in an operand |
| `ActionRoundTrip.LeadParsed` | ovs/actionparser.go:192-326 | a text with a fixed beginning and no further parenthesis is neither a word nor a ct action and reaches its own case |
| `ActionRoundTrip.NothingFound` | ovs/actionparser.go:328-392 | a text without parentheses whose colons follow no pattern's letter is refused |
| `ActionRoundTrip.SetTunnelIsRejected` | ovs/actionparser.go:368-392 | set_tunnel prints, but its text is refused by the parser |
| `ActionRoundTrip.WordSurvives` | ovs/action.go:86-88 | each word action parses back from its text, except all, which is refused |
| `ActionRoundTrip.WordsInAnyCase` | ovs/actionparser.go:175-190 | a text is read as a word if and only if it is that word in any case of its letters; all is read in none |
| `ActionRoundTrip.PairExactly` | ovs/actionparser.go:368-390 | load, move and set_field parse back if and only if the operands hold no blank, the second holds no arrow with text behind it, and no pattern tried earlier occurs in the text |
| `ActionRoundTrip.TokensSurvive` | ovs/actionparser.go:146-170 | operands free of blanks, inner arrows and the keywords of earlier patterns meet that condition |
| `ActionRoundTrip.SurvivesExactly` | ovs/actionparser.go:175-393 | every printable action, learn and multipath included, parses back from its text if and only if Survives holds |
| `ActionNames.WordTexts` | ovs/action.go:86-93 | the words print as they are |
| `ActionNames.HeaderTexts` | ovs/action.go:247-383 | the mod_ actions print under their own beginnings if and only if the address is Ethernet, the IP address present, the VLAN below 4096 |
| `ActionNames.OutputTexts` | ovs/action.go:402-555 | output and resubmit to a port print if and only if the port is not negative, and for resubmit at most 0xfffffeff |
| `ActionNames.ResubmitTexts` | ovs/action.go:562-578 | resubmit(port,table) leaves zeros out and refuses two of them |
| `ActionNames.PairTexts` | ovs/action.go:620-690 | load, move and set_field print their operands with an arrow between them and refuse empty ones |
| `ActionNames.ConjunctionTexts` | ovs/action.go:501-508 | a conjunction prints its three numbers if and only if the dimension is at most the size |
| `ActionNames.OperandsSpaced` | ovs/actionparser.go:200-290 | white space before an operand is skipped, but a line feed in it is refused |
| `ActionNames.PortExactly` | ovs/actionparser.go:268-290 | a transport port is read if and only if it has at most 16 bits |
| `ActionNames.CtAnywhere` | ovs/actionparser.go:192-199 | ct( is found behind any text without a parenthesis, which is lost |
| `ActionNames.FoundInText` | ovs/actionparser.go:140-170 | what a pattern finds stands in the text, between the pattern's own characters |
| `ActionNames.OtherCharacterRefused` | ovs/actionparser.go:304-314 | between the numbers of a conjunction only its own characters are accepted |
| `ActionList.ActionReader.Read` | ovs/actionparser.go:48-54 | the next character, or the NUL sentinel at the end |
| `ActionList.ActionReader.ReadAction` | ovs/actionparser.go:82-126 | the loop with buffer and stack cuts off the piece that ReadPiece describes, with its error, end and panic outcomes, and leaves the reader behind it |
| `ActionList.ActionReader.Parse` | ovs/actionparser.go:58-78 | the collecting loop returns what ParseList says |
| `ActionList.RawIsWhole` | ovs/actionparser.go:86-121 | a piece that is cut off is balanced, has no comma outside parentheses, and is the text up to the next comma or the end |
| `ActionList.ReadWhole` | ovs/actionparser.go:86-121 | a balanced piece without an outer comma is cut off whole, before a comma or at the end |
| `ActionList.EmptyIsNoAction` | ovs/actionparser.go:392 | the empty text is no action, so empty pieces are refused |
| `ActionList.ParsedExactly` | ovs/actionparser.go:58-126 | on NUL-free text the reader returns these actions and pieces if and only if the pieces are balanced, have no outer comma, parse to the actions, and joined by commas give the text, with or without one trailing comma |
| `ActionList.NoPanic` | ovs/actionparser.go:141-144 | the stack does not underflow if no beginning of the text has an excess closing parenthesis |
| `ActionList.ExcessIsNotParsed` | ovs/actionparser.go:141-144 | a text with an excess closing parenthesis is never accepted |
| `ActionList.ReaderExtremes` | ovs/actionparser.go:43-54 | a lone closing parenthesis panics, and a leading NUL hides the rest of the text |
| `Flows.MarshalActionsLoop` | ovs/flow.go:497-509 | the texts of the actions in order, or the first error |
| `Flows.MarshalMatchesLoop` | ovs/flow.go:497-509 | the texts of the matches in order, or the first error |
| `Flows.Flow.constructor` | ovs/flow.go:58-68 | a new flow is the zero value |
| `Flows.Flow.MarshalText` | ovs/flow.go:139-207 | the text is the present fields and then the actions, joined by commas; the error cases come in the order of the source |
| `Flows.Flow.HeadText` | ovs/flow.go:167-202 | the buffer, grown field by field, is the list of present fields joined by commas |
| `Flows.Flow.SetPair` | ovs/flow.go:335-437 | one key=value field sets the field of the flow that the key names, appends a match, or does nothing |
| `Flows.Flow.UnmarshalText` | ovs/flow.go:295-463 | the final state, also after an error part of the way, and the error are those of ParseInto |
| `FlowRoundTrip.ActionsParseBack` | ovs/flow.go:440-449 | the joined texts of fitting actions parse back to the actions and the texts, in order |
| `FlowRoundTrip.CookieParses` | ovs/flow.go:511-515 | a padded hexadecimal cookie is read back with its base told by the prefix |
| `FlowRoundTrip.KeyFits` | ovs/flow.go:335-425 | no match key other than in_port is taken for a field of the flow or ends like actions |
| `FlowRoundTrip.FieldsLead` | ovs/flow.go:317-438 | the printed fields, applied in order, set exactly the fields they came from |
| `FlowRoundTrip.CutAtKey` | ovs/flow.go:300-312 | the text splits at actions= into exactly the fields and the actions |
| `FlowRoundTrip.CutFields` | ovs/flow.go:312-324 | the comma left behind the last field changes nothing |
| `FlowRoundTrip.UnmarshalUndoesMarshal` | ovs/flow.go:295-463 | unmarshaling the text of a well-formed flow into any flow restores every printed field; fields the text leaves out keep their old values |
| `FlowRoundTrip.FlowRoundTrips` | ovs/flow.go:139-207 | into a fresh flow, priority, protocol, in-port with LOCAL and absent, table, idle timeout, cookie, matches and actions all come back in order |
| `FlowRoundTrip.MarshalThenUnmarshal` | ovs/flow.go:139-463 | the two methods of the class, run one after the other, give an equal flow |
| `FlowRoundTrip.OutputFlowsAreWellFormed` | ovs/flow.go:139-207 | every flow without matches that outputs to one port, with any numbers and a plain protocol, is well-formed |
| `FlowRoundTrip.HiddenKeyIsRejected` | ovs/flow.go:300-306 | with actions= inside an action the flow still prints, but its text is refused |
| `FlowRoundTrip.InPortMatchIsTheField` | ovs/flow.go:361-377 | an in_port match is read back as the field of the flow |
| `FlowPrinting.FlowPrintsExactly` | ovs/flow.go:139-171 | a flow prints if and only if it has actions, each of them and each match prints, and drop stands alone; otherwise the first of these reasons is the error |
| `FlowPrinting.ShortLine` | ovs/flow.go:165-206 | the line of a flow without the parts that may be absent, written out |
| `FlowPrinting.LongLine` | ovs/flow.go:165-206 | the line of a flow with every part, written out: the order of the fields, LOCAL, and the cookie |
| `FlowPrinting.CookieWidth` | ovs/flow.go:511-515 | a cookie prints with 0x and sixteen digits |
| `FlowDump.DumpedFields` | ovs/flow.go:286-457 | a dumped line, with white space before actions= and at its ends, sets every field up to the last one and the actions; drop beside other actions is reported |
| `FlowDump.DumpedFlow` | ovs/flow.go:286-457 | the dumped form of a well-formed flow, read into any flow, restores every field like the printed form |
| `FlowDump.UnmarshalDumped` | ovs/flow.go:286-457 | the method, on a dumped line, leaves exactly those fields and actions |
| `FlowDump.DumpedLine` | ovs/flow.go:359-375 | a line with in_port=LOCAL and two actions behind a space, for all numbers: the in-port becomes -1 |
| `FlowDump.NoActionsRefused` | ovs/flow.go:290-302 | a line without actions=, with nothing behind it, or with two of it is refused and the flow left alone |
| `FlowDump.BadFieldStops` | ovs/flow.go:314-443 | the first bad field ends the reading: the fields before it stay set, the actions keep what they were |
| `FlowDump.BadActionsRefused` | ovs/flow.go:438-448 | a refused action list leaves the fields set and the actions alone |
| `FlowDump.NumberFields` | ovs/flow.go:336-400 | priority, table, idle_timeout and cookie set their own field to the number, or report the value that is none |
| `FlowDump.CounterFields` | ovs/flow.go:400-421 | so do n_packets and n_bytes |
| `FlowDump.InPortField` | ovs/flow.go:359-378 | in_port takes a number or LOCAL |
| `FlowDump.PassedOver` | ovs/flow.go:422-437 | duration, idle_age, hard_age and unknown keys are passed over |
| `FlowDump.CapitalDrop` | ovs/flow.go:448-457 | DROP beside another action is accepted, and the flow that comes out does not print |
| `MatchFlows.MatchFlow.MarshalText` | ovs/matchflow.go:78-137 | the text, or the error, is that of MatchFlowText |
| `MatchFlows.MatchFlow.Appended` | ovs/matchflow.go:84-128 | parts appended with a comma each and trimmed are the parts joined by commas and trimmed |
| `MatchFlows.TextIsJoin` | ovs/matchflow.go:128-136 | the text is the present parts joined by commas if and only if no part brings a comma of its own to an end; it never begins or ends with one |
| `MatchFlows.EmptyExactly` | ovs/matchflow.go:130-134 | with printable matches, the empty error is returned if and only if nothing is set, apart from a protocol of nothing but commas |
| `FlowPrinting.TableLine` | ovs/matchflow.go:124-134 | table -1 alone is the empty match flow, any other table prints |
| `FlowPrinting.MatchFlowLine` | ovs/matchflow.go:84-128 | the line of a match flow with every part, written out, with -1 as the mask of an exact cookie |
| `MatchFlowReading.MatchFlowNamesFlow` | ovs/flow.go:465-474 | the text of a flow's match flow, split at commas, has the cookie as a part of its own if there is one; the other parts, read as fields, give the flow's protocol, in-port, matches and table |
| `MatchFlowReading.CookieFieldReads` | ovs/matchflow.go:108-121 | the cookie part splits into the cookie, which reads back, and its mask or -1 |
| `FlowStatistics.CounterParses` | ovs/flow.go:400-421 | a printed counter reads back although its base is told from the prefix |
| `FlowStatistics.CountersSet` | ovs/flow.go:400-421 | the packet and byte counters of a dumped flow, with any white space around key and value, set the statistics |
| `FlowStatistics.SpacedPair` | ovs/flow.go:329-335 | any white space around a key and around a value does not matter to the fields of a flow |
| `FlowStatistics.MatchReadExactly` | ovs/flow.go:427-437 | a key that is a match's key but for white space around it is read if and only if there is no such space and the value holds no equals sign; otherwise the match is dropped without an error |
| `FlowTransactions.FlowTransaction.AddFlows` | ovs/openflow.go:81-92 | Add does the Add step: nothing after an error, otherwise pushes |
| `FlowTransactions.FlowTransaction.DeleteFlows` | ovs/openflow.go:97-108 | Delete does the Delete step |
| `FlowTransactions.FlowTransaction.PushAll` | ovs/openflow.go:112-125 | the loop pushes up to the first failure and records it |
| `FlowTransactions.FlowTransaction.CommitAll` | ovs/openflow.go:131-138 | Commit returns the recorded error, or marks the transaction committed |
| `FlowTransactions.FlowTransaction.DiscardAll` | ovs/openflow.go:143-146 | Discard empties the directives and nothing else, and wraps the error given |
| `FlowTransactions.AddFlowBundle` | ovs/openflow.go:152-183 | a bundle is written only after the callback returned nil and a Commit succeeded, and consists of the directives held at the end |
| `FlowTransactions.FirstErrorSticks` | ovs/openflow.go:112-138 | after any run the recorded error, which every later Commit returns, is the first failure of the whole run |
| `FlowTransactions.HeldExactly` | ovs/openflow.go:112-146 | after any run the held directives are those since the last Discard up to the first failure, in order |
| `FlowTransactions.CommitVouches` | ovs/openflow.go:131-183 | a callback that ends in a Commit and returns its nil result has pushed nothing invalid, and what is written is exactly what was pushed since the last Discard, one line each, in order |
| `FlowTransactions.BundleIsLines` | ovs/openflow.go:168-175 | the text of a bundle is one line for each directive, in order: the directive, a space and the flow |
| `FlowTransactions.LinesWritten` | ovs/openflow.go:131-183 | a callback without failure that ends in a Commit writes, line by line and in order, what was pushed since the last Discard |
| `FlowTransactions.DeleteThenAdd` | ovs/openflow.go:64-67 | a flow deleted and a flow added behind it are written as a delete line and then an add line |
| `FlowTransactions.NothingWritten` | ovs/openflow.go:158-165 | nothing is written if and only if the callback returned an error or no Commit succeeded |
| `FlowTransactions.CommittedExactly` | ovs/openflow.go:131-138 | the transaction is committed if and only if some Commit found no failure before it |
| `FlowTransactions.AddIsNoOpExactly` | ovs/openflow.go:78-92 | Add, documented to do nothing if any flow is invalid, leaves the held directives alone if and only if an error was recorded before, it has no flows, or its first flow is invalid |
| `FlowTransactions.DeleteIsNoOpExactly` | ovs/openflow.go:94-108 | the same of Delete |
| `FlowTransactions.PartialAdd` | ovs/openflow.go:112-125 | Add of a valid and an invalid flow keeps the valid one and records the error |
| `FlowTransactions.PartialDelete` | ovs/openflow.go:112-125 | the same of Delete |
| `FlowTransactions.RunBehindCommit` | ovs/openflow.go:112-146 | behind a successful Commit, any operations go on as in a new transaction, in front of which stands what was held unless they discard it |
| `FlowTransactions.AfterCommit` | ovs/openflow.go:131-183 | for all operations behind a successful Commit: the bundle is written and their first failure reported by nobody; without a Discard what is written stays the same if and only if they push nothing or their first push fails, and with one only what is pushed behind it is written |
| `FlowTransactions.CommitDoesNotFreeze` | ovs/openflow.go:162-172 | three such runs: a later flow is written, a later Discard empties the bundle, a later failure is not reported |
| `GroupedScan.Scanner.Scan` | ovs/openflow.go:446-448 | advances by one line, unless there is none |
| `GroupedScan.RestOfGroup` | ovs/openflow.go:470-490 | consumes the other lines of a group and keeps the second, or reports that they run out |
| `GroupedScan.ParseEach` | ovs/openflow.go:444-498 | for every text and every behaviour of the callback: how many calls are made, that call i gets lines 1+ik and 2+ik put together, and which error is returned |
| `GroupedScan.OutcomeFrom` | ovs/openflow.go:466-497 | after c successful calls: no line left means success, a broken group an unexpected end, a failing callback its error |
| `GroupedScan.NeverFailing` | ovs/openflow.go:466-497 | with a callback that never fails there are (n-1) div k calls, and an unexpected end if and only if k does not divide n-1 |
| `GroupedScan.GroupSizes` | ovs/openflow.go:456-500 | an entry has two lines without an OpenFlow version in the banner, three with one, five if the text shows custom statistics |
| `CtLimits.RemoveDefaults` | ovs/datapath.go:180-193 | the loop over the original slice, deleting in the shared array, computes RangeFrom with its errors and panics |
| `CtLimits.Delete` | ovs/datapath.go:191 | deleting shifts the elements behind and leaves the last one in place a second time |
| `CtLimits.PassedStays` | ovs/datapath.go:182-193 | lines the loop has passed are never changed again |
| `CtLimits.RunExactly` | ovs/datapath.go:182-193 | from any point of the loop, the result is right if and only if the rest of the lines keep default lines apart |
| `CtLimits.RemovalExactly` | ovs/datapath.go:180-193 | the other lines remain, in order and without a panic or an error, if and only if no two default lines touch, a default line at the end is the only one, and every default line holds a number |
| `CtLimits.TouchingDefaultsAnswer` | ovs/datapath.go:180-205 | with two default lines that touch, the second limit comes out as the record of a zone |
| `CtLimits.SingleDefault` | ovs/datapath.go:180-193 | with exactly one default line, at any index, the other lines remain in order and its limit is found |
| `CtLimits.ZoneRecord` | ovs/datapath.go:197-203 | the loop over the fields of a line fills the record |
| `CtLimits.ZoneRecords` | ovs/datapath.go:195-205 | one record for each line, or the panic of a field without an equals sign |
| `CtLimits.AnswerExactly` | ovs/datapath.go:171-207 | an answer is read as it stands, with the last default limit and one record for each other line in order, if and only if the default lines are as in RemovalExactly and every field of every other line has an equals sign |
| `CtLimits.ReadLimits` | ovs/datapath.go:171-207 | both loops together, on the text split into lines, read the answer as it stands if and only if it is of that form |
| `CtLimits.EmptyAnswerPanics` | ovs/client.go:90-95 | an answer of nothing but white space is cut to the empty text, whose one empty line makes the zone loop panic |
| `CtLimits.BlankLinePanics` | ovs/datapath.go:195-205 | a blank line inside the answer makes the zone loop panic |
| `CtLimits.ZonesExactly` | ovs/datapath.go:195-205 | one record per line and no panic if and only if every field of every line has an equals sign; an empty line has none |
| `CtLimits.RecordMeans` | ovs/datapath.go:199-203 | a record holds a key if and only if a field names it, with the value of the last such field |
| `CtLimits.FieldValueExactly` | ovs/datapath.go:199-203 | a value beyond 64 bits counts as the bound it lies beyond, a negative one wraps around |
| `CtLimits.NoNumberCountsZero` | ovs/datapath.go:199-203 | a value that is no number counts as 0 |
| `CtLimits.SecondPart` | ovs/datapath.go:183-203 | limits and values stand between the first equals sign and the second |
| `CtLimits.DefaultAnywhere` | ovs/datapath.go:175-184 | default counts wherever it stands in a line |
| `CtLimits.LimitOfLast` | ovs/datapath.go:184-189 | of several default lines the last one's limit counts |
| `RpcSafety.StepKeeps` | ovsdb/client.go:203-419 | every step of every goroutine keeps the invariant |
| `RpcSafety.ReachableInv` | ovsdb/client.go:203-419 | the invariant holds in every reachable state |
| `RpcSafety.ChannelSafety` | ovsdb/client.go:226-242 | in every run no ID is registered twice, and no channel is sent to twice, closed twice, or sent to after it was closed |
| `RpcSafety.HolderNeverBlocked` | ovsdb/client.go:397-419 | the send in doCallback always finds the slot free, so the mutex is never held by a blocked goroutine |
| `RpcSafety.ResponseRouting` | ovsdb/client.go:299-309 | a call that completes with a message got the first message with its ID handled after it registered |
| `RpcSafety.OneReceiver` | ovsdb/client.go:397-419 | no message reaches two calls |
| `RpcSafety.NoSilentSuccess` | ovsdb/client.go:249-261 | a channel found closed and empty, or the context's case, implies that the context is done, so that branch returns an error |
| `RpcSafety.NoLostWakeup` | ovsdb/client.go:397-419 | a waiting call is registered, being served, or has something to receive |
| `RpcSafety.DoneForever` | ovsdb/client.go:203-266 | a call that has returned keeps its outcome in every later state |
| `RpcSafety.NoLeak` | ovsdb/client.go:232-242 | after rpc has returned, its ID is never in the map again |
| `RpcSafety.CallbacksBounded` | ovsdb/client.go:173-184 | there are at most as many callbacks as calls in flight, so none with none in flight |
| `RpcDelivery.ReplyArrives` | ovsdb/client.go:249-264 | a waiting call whose reply listen is about to handle can run to its end with that very message, and leaves the map without its ID |
| `RpcDelivery.CallCompletes` | ovsdb/client.go:203-266 | from every reachable state in which listen receives on an open connection, a new call under a live context can run, step by step, to its end with the reply to its request, whose ID is the next number |
| `RpcDelivery.OnlyReplyEnds` | ovsdb/client.go:245-264 | in every run, a call whose Send succeeded and whose context is not done ends with a message, if it ends |
| `RpcDelivery.DoneContextIsNotSent` | ovsdb/client.go:204-209 | in every run, a call that begins under a done context is never sent and never registered |
| `RpcDelivery.SentWhileOpen` | ovsdb/client.go:245-247 | no request leaves once Close has closed the connection |
| `RpcShutdown.BackgroundDrops` | ovsdb/client.go:270-373 | once the connection is closed, every step of the background goroutines lowers a measure |
| `RpcShutdown.OthersWait` | ovsdb/client.go:203-266 | steps of user calls leave the measure alone |
| `RpcShutdown.SomeoneGoesOn` | ovsdb/client.go:165-170 | as long as a background goroutine has not exited, one of them has a step |
| `RpcShutdown.ListenGoesOn` | ovsdb/client.go:270-311 | unless it has exited, listen has a step after Close, even if it was handing off an echo |
| `RpcShutdown.TickerGoesOn` | ovsdb/client.go:315-339 | unless it has exited, echoTicker has a step after Close |
| `RpcShutdown.EchoGoesOn` | ovsdb/client.go:342-373 | unless it has exited, echoLoop or its call has a step after Close, or waits for the mutex whose holder has one |
| `RpcShutdown.ShutdownIsBounded` | ovsdb/client.go:165-170 | every run after Close takes at most a fixed number of background steps, whatever the user calls do |
| `RpcShutdown.ShutdownCompletes` | ovsdb/client.go:165-170 | from every reachable state with the connection closed, background steps alone lead to all goroutines having exited, and Close can return |
| `RpcShutdown.NobodyStopsEarly` | ovsdb/client.go:270-352 | listen stops only when the connection ends, echoLoop and echoTicker only when the client's context is done |
| `RpcShutdown.CloseWaitsForAll` | ovsdb/client.go:165-170 | when Close has returned, every background goroutine has exited |
| `RpcShutdown.BufferIsEmptied` | ovsdb/client.go:271-282 | what was left when the connection was closed is still received before listen sees its end |
| `RpcBlocking.BlockedExactly` | ovsdb/client.go:270-373 | in every reachable state, listen, echoLoop and its call have no step if and only if echoLoop waits for a reply under a live context while listen offers it an echo or has exited, or listen has exited and echoLoop has too or nobody asks it for an echo |
| `RpcBlocking.StuckIsReachable` | ovsdb/client.go:286-295 | the first of these, listen offering an echo, is reached before any Close |
| `RpcBlocking.OrphanedIsReachable` | ovsdb/client.go:272-277 | the second is reached before any Close when the server ends the connection instead of replying |
| `RpcBlocking.OnlyCloseUnblocks` | ovsdb/client.go:270-311 | both last through every run without Close |
| `RpcBlocking.CloseUnblocks` | ovsdb/client.go:165-170 | Close gives the goroutines that wait a step again |
| `RpcCallers.CallerGoesOn` | ovsdb/client.go:203-266 | a call whose context is done has its next step, or waits for the mutex whose holder has one |
| `RpcCallers.CancelledCallReturns` | ovsdb/client.go:203-266 | a call whose context is done can return within nine steps, all of them its own or the mutex holder's |
| `RpcCallers.CancelReturns` | ovsdb/client.go:249-254 | cancelling its context is enough to let any call of a user return within nine more steps |
| `RpcCallers.OnlyContextEndsWait` | ovsdb/client.go:249-261 | a call that still waits when listen has exited waits until its own context is done, in every run |
| `RpcEcho.EchoesCounted` | ovsdb/client.go:342-373 | in every reachable state, successes and failures together are exactly the finished echo calls, except those whose Send failed on the closed connection; successes number at most the echo calls that got a message |
| `RpcEcho.ReportFinished` | ovsdb/client.go:356-372 | a report moves exactly echoLoop's call into the finished ones of its verdict |
| `RpcEcho.SameFinished` | ovsdb/client.go:342-373 | no other step changes what is finished |
| `RpcEcho.SuccessesCounted` | ovsdb/client.go:371 | in every run, successes are exactly the reports of an echo call that succeeded |
| `RpcEcho.TickMakesEcho` | ovsdb/client.go:315-355 | while the client is open and echoLoop idle, every tick leads to an echo call |
| `RpcClient.CallbackRunIs` | ovsdb/client.go:397-419 | in every reachable state doCallback, undisturbed, removes the callback, closes the channel once, and leaves the message in it unless the context's case was taken |
| `RpcClient.Client.RequestID` | ovsdb/client.go:158-162 | the ID is new: no callback and no other call carries it |
| `RpcClient.Client.AddCallback` | ovsdb/client.go:383-393 | registers the callback, and the panic is not reached |
| `RpcClient.Client.RemoveCallback` | ovsdb/client.go:237-242 | the deferred deletion leaves the ID unregistered |
| `RpcClient.Client.DoCallback` | ovsdb/client.go:397-419 | the body on the fields takes exactly the steps of the protocol |
| `RpcClient.Client.Stats` | ovsdb/client.go:173-184 | the callback count is at most the number of calls in flight |

## Left out

- ActionRoundTrip.SurvivesExactly: assumes that a printed address consists of hexadecimal digits, colons and dots, as the addresses of Go's net package do.
- FlowRoundTrip.FlowRoundTrips: speaks of well-formed flows, whose matches and actions parse back one by one, whose protocol holds no comma or equals sign, and whose action text has no white space at its ends and no `actions=` inside.
- RpcEcho.EchoesCounted: whether a reply counts as a success depends on its content, which the model leaves open; a failure reply whose own text speaks of a closed connection is not told apart.
- RpcShutdown.ShutdownCompletes: makes no claim for calls of users still waiting at Close under a context that is never cancelled; they are outside the client's wait group.
- RpcClient.Client.DoCallback: is one undisturbed execution; interleavings with other goroutines are the subject of `RpcSafety`.
- FlowTransactions.AddFlowBundle: the callback is the sequence of operations it performs and the error it returns; running ovs-ofctl is not modelled.
- GroupedScan.ParseEach: starts from the lines; the 64 KB limit of a Scanner token and the splitting into lines are not modelled.
- The bodies of rpc, listen, echoTicker, echoLoop and Close are events of a state machine rather than methods with loops, since their interleaving is the point; only the sections on the counter and the map are methods as well.
- The request counter is unbounded; the wrap-around of a 64-bit counter is not modelled.
- Text is ASCII: case folding and character widths beyond it are not modelled.
- Process execution, pipes, sudo, option flags and debug logging.
- JSON encoding, sockets and the JSON-RPC connection: sending succeeds or fails, and messages arrive with an ID and a payload.
- The Netlink client and its generated constants.
- GoString methods and code generation, which print and have no inverse.
- How a learned flow prints; its text is a parameter of the learn action, which is never parsed.
- Port, flow and table statistics and packet traces, which pick fields from fixed layouts.
- The arguments built for ovs-dpctl, which are joined strings without further structure.
- The inner structure of addresses and of ct arguments, which stay opaque text.
