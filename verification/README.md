# A verified model of the broker, its trie, its hash and its command line

This project models the parts of the message broker in which most can go wrong, in the shapes the
program gives them, and proves what they promise.

* **The subscription trie** (`TrieShape`, `TrieNode`, `TrieState`, `TrieHeap`, `TrieHistory`): a
  mutable patricia trie with packed prefixes, sparse and dense child arrays, splitting and compacting.
  After any history of calls it answers as a plain map from strings to sets, queried by prefix. The
  map is carried along as a value; every heap operation is proved to change it as the map would.
* **The two subscription indexes** (`SubIndex`, `Interest`): the table of each client's topics beside the
  trie, what both hold after any requests, and what the code as written leaves behind in the trie.
* **The broker tree** (`Broker`, `RouteTree`, `Routing`, `Delivery`, `Quiet`, `Network`): the handlers of
  one broker, and the whole tree with a queue for each edge and direction. Routing is safe in every
  reachable state, messages are conserved and settle, tenants stay apart, and while nobody comes or
  goes every message is delivered or returned. `Network` joins the broker objects by the queues and
  shows that their handlers make exactly the steps these results are about.
* **Publications** (`Flood`): in any interleaving every broker hands a publication on exactly once.
* **Scoped keys** (`ScopeKey`, `ScopedDelivery`): when a request and a publication meet in the trie, and
  through both indexes which clients, and clients of which tenant, a publication is handed to.
* **Publications to clients** (`Spread`): flood and delivery together, over the whole tree.
* **xxHash** (`XxHash32`, `XxHash64`, `XxValues32`, `XxValues64`): buffered hashing equals one-shot
  hashing for every cutting of the input, inputs that differ in one word have different 32-bit hashes,
  and the hashes have their published values.
* **The command line** (`Tokens`, `Numerals`, `ParserFsm`, `Editor`): token matchers against their
  languages, number readers against true values, an incremental parser in which erasing undoes
  typing, and a line editor that keeps the parser in step with the text left of the cursor.
* **Base64** (`Base64`): the resumable coders, their round trip for any cutting, and their sizes.

`dafny verify dfyconfig.toml` checks everything.

## How to read it

State that the program changes in place is a class, and each of its methods is proved against a
function of its old state; what the program promises is then proved about those functions. Where the
program tests conditions by flags and loops (`Broker.Daemon.SendFrom`, the matchers, the readers), the
reference is a definition that does not mention them.

Some promises do not hold of the code as written. There the code is kept and the exact condition is
proved:

* The conversions between sparse and dense arrays reset `refcount` and do not carry `sockids`, against
  what `include/trie.h:57-71` says of these fields. `TrieHeap.Trie` takes a parameter: `carry` is false
  for the code as written, true for conversions that carry both over. `TrieHistory.History` is about
  both, `TrieHistory.AsWrittenExact` says exactly when the code as written loses an entry, and
  `TrieHistory.NinthBranchLosesEntry` and `NinthBranchGoneLosesEntry` do it on an empty trie.
* `remove_subscription` throws away the client's whole list. `SubIndex.Index` takes a parameter `keep`
  in the same way. `Interest.AsWrittenStands` says exactly which topics then linger in the trie,
  `Interest.TidyAgrees` when the two indexes agree, `ScopedDelivery.AsWrittenHands` when publications go
  to the right clients all the same, and `ScopedDelivery.SecondTakeBackLost` runs into it.
* `s_cb_unreg_dist_cli` deletes a name whichever child withdraws it (`Routing.UnregSpares`,
  `Routing.TwoHomes`). The
  routing results therefore assume that a prefixed name registers at one broker only.
* The decimal readers miss the carry out of their last addition (`Numerals.DecTaken`).
* A line may grow to 383 characters while the parser takes 382, and the line refuses the zero character
  which the parser reads (`Editor.OneKey`, `LongLineSlips`, `NulSlips`).
* The missing name in an error is shown differently at the root and elsewhere when just one of sender
  and destination is public (`Quiet.MissingNamed`, `Quiet.SameCall`).
* Byte 123 indexes one beyond the base64 table (`Base64.IndexInTable`).

## Model

| member | source | states |
|---|---|---|
| TrieNode.Node.CheckPrefix | src/lib/trie.c:211-224 | the length of the longest common start of the node prefix and the data |
| TrieNode.Node.Next | src/lib/trie.c:232-253 | the slot of a branch character, in sparse and in dense arrays, or -1 exactly when there is neither an edge nor a hole for it |
| TrieNode.Node.AddSparse | src/lib/trie.c:393-406 | the sparse array gets a hole for the new character and keeps every other child |
| TrieNode.Node.AddDense | src/lib/trie.c:408-440 | the dense array is stretched to the new character, old children stay under their characters, the count rises by one |
| TrieNode.Node.SparseRange | src/lib/trie.c:445-454 | the range of the dense array is spanned by the children and the new character, and its ends are occupied |
| TrieNode.Node.Spread | src/lib/trie.c:472-476 | every sparse child lands in the dense slot of its character and all other slots are null |
| TrieNode.Node.ToDense | src/lib/trie.c:442-483 | the full sparse array becomes dense with a hole for the ninth character; refcount and subscribers survive exactly when they are carried over |
| TrieNode.Node.DropSparse | src/lib/trie.c:658-675 | the slot of the removed child goes and every other child stays under its character |
| TrieNode.Node.DropDense | src/lib/trie.c:701-745 | the array is trimmed to occupied ends and loses exactly the removed slot |
| TrieNode.Node.Gather | src/lib/trie.c:756-765 | the eight non-null slots of the dense array, in order of their characters |
| TrieNode.Node.ToSparse | src/lib/trie.c:747-769 | the dense array becomes a sparse one of eight children; refcount and subscribers survive exactly when they are carried over |
| TrieHeap.Trie.Match | src/lib/trie.c:580-610 | 1 if some subscribed string is a prefix of the query, else 0 |
| TrieHeap.Trie.Merge | src/lib/trie.c:303-313 | appending one by one if not yet there gives a list without duplicates holding exactly both lists' members |
| TrieHeap.Trie.Tree | src/lib/trie.c:540-578 | without duplicates, exactly the subscribers of the subscribed strings that are prefixes of the query |
| TrieHeap.Trie.Walk | src/lib/trie.c:334-365 | stops at the one node where the string leaves the trie, with what is matched of its prefix |
| TrieHeap.Trie.Split | src/lib/trie.c:367-383 | a node is split in the middle of its prefix; the subscriptions stay the same and the trie stays in order |
| TrieHeap.Trie.Compact | src/lib/trie.c:255-285 | merging a node with its only child keeps the subscriptions and the order, on the three conditions of the source |
| TrieHeap.Trie.Extend | src/lib/trie.c:385-483 | the child array gets room for a new branch; only a conversion as written loses the node's own subscription |
| TrieHeap.Trie.Grow | src/lib/trie.c:485-513 | new nodes of at most five characters spell the rest of the string, subscriptions unchanged |
| TrieHeap.Trie.Enlist | src/lib/trie.c:515-537 | adds the subscriber once, with the return code telling whether it was new |
| TrieHeap.Trie.Subscribe | src/lib/trie.c:315-537 | the map of subscriptions gains exactly (string, subscriber), less the entry of a node that is converted as written; the return code is exact |
| TrieHeap.Trie.Deref | src/lib/trie.c:779-789 | the reference count and the list both lose exactly the subscriber |
| TrieHeap.Trie.Release | src/lib/trie.c:771-816 | the end of an unsubscription: the map loses the pair, an unused node disappears or is compacted, the return code is exact |
| TrieHeap.Trie.Prune | src/lib/trie.c:652-769 | after a child has vanished the array shrinks and the node is freed or compacted; only a conversion as written loses an entry |
| TrieHeap.Trie.Unsub | src/lib/trie.c:617-817 | the recursion: the pair is removed below this level, the levels above are untouched unless the child vanished |
| TrieHeap.Trie.Unsubscribe | src/lib/trie.c:612-615 | the map of subscriptions loses exactly (string, subscriber), less the entries of nodes converted as written; without a subscription nothing changes |
| TrieHistory.Perform | src/lib/trie.c:315-817 | one call changes the map of subscriptions as ApplyAs says, for the code as written and for conversions that carry over |
| TrieHistory.Query | src/lib/trie.c:540-610 | both queries answer from the map alone |
| TrieHistory.History | src/lib/trie.c:315-817 | after any history of subscriptions and matching unsubscriptions both queries answer from the map the history makes, by prefix: the plain map with conversions that carry over; as written the plain map less the entries of LostBySub and LostByUnsub, where the list that a fall to eight children leaves unset is taken as empty |
| TrieHistory.AsWrittenExact | src/lib/trie.c:463-472 | as written, a call does what the plain map does if and only if no subscribed string on the way has exactly eight next characters and gets a ninth, or has exactly nine and loses one: told from the subscriptions alone |
| TrieHistory.EdgesAreNexts | include/trie.h:43-88 | the edges of a node are exactly the characters with which subscribed strings go on from it |
| TrieHistory.DropsAreLosses | src/lib/trie.c:748-768 | the entries that the conversions of the heap drop are the losses told from the subscriptions |
| TrieHistory.NinthBranchLosesEntry | src/lib/trie.c:463-472 | as written, on an empty trie: after subscribing to "a" and nine strings that go on from it, both queries for "a" find nothing |
| TrieHistory.NinthBranchGoneLosesEntry | src/lib/trie.c:748-768 | as written, on an empty trie: after nine strings, "a", and one unsubscription, both queries for "a" find nothing |
| TrieHistory.RootNull | src/lib/trie.c:652-816 | the root is NULL if and only if nothing is subscribed |
| TrieHistory.NodeShape | include/trie.h:43-88 | prefix of at most five, distinct sparse characters, dense arrays of nine or more with occupied ends, refcount the number of distinct subscribers, childless nodes subscribed |
| SubIndex.Index.Insert | src/lib/htable.c:470-502 | the client's list gains the topic once; 0, 1 or 2 by what was there |
| SubIndex.Index.Subscribe | src/lib/broker.c:945-968 | table and trie gain the same pair, less what a conversion as written loses |
| SubIndex.Index.Remove | src/lib/htable.c:427-464 | a client without a list changes nothing; the trie loses the pair exactly if it was listed; as written the whole list goes; with conversions that carry over the two indexes still agree if and only if only the topic is dropped or it was the client's only one |
| SubIndex.Index.RemoveAll | src/lib/htable.c:386-423 | every listed topic of the client leaves the trie and the table; nothing else does but what conversions as written lose on the way |
| SubIndex.RemoveEffect | src/lib/htable.c:456-462 | the same statement on plain values: dropping the whole list breaks agreement exactly when another topic was in it |
| SubIndex.TwoTopicsDisagree | src/lib/htable.c:456-462 | a client of two topics that gives one up stays in the trie for the other while the table forgets it |
| SubIndex.AsWrittenCovers | src/lib/trie.c:463-472 | with the conversions as written, each request (SUB, UNSUB or the removal of a client) leaves every entry of the table in the trie if and only if no client is still listed for a string that it loses |
| SubIndex.CoveredSafe | src/lib/htable.c:386-464 | with conversions that carry over, every nn_trie_unsubscribe of a request is for an entry that is in the trie |
| SubIndex.SafeGone | src/lib/trie.c:748-768 | as written, that holds for the removal of a client if and only if none of its topics is lost to the unsubscriptions before its own |
| SubIndex.FewRequests | src/lib/trie.c:463-472 | up to eight requests the conversions as written lose nothing |
| SubIndex.Serve | src/lib/htable.c:386-502 | any run of requests leaves the two indexes that the requests make, one after the other; with conversions that carry over each entry of the table is in the trie, and with the fix of remove_subscription both stay equal |
| Interest.IndexesHold | src/lib/htable.c:386-502 | table and trie hold for each client two sets told from its requests alone: only what is listed leaves the trie |
| Interest.KeptPlain | src/lib/htable.c:427-464 | with the fix both hold exactly what the client subscribed to and has not taken back since |
| Interest.AsWrittenStands | src/lib/htable.c:438-462 | as written the table lists what a client has subscribed to since it last took anything back, and the trie holds what it wants and besides exactly what lingers: topics taken back after another one |
| Interest.AsWrittenPlain | src/lib/htable.c:456-462 | as written the trie holds just what is wanted if and only if nothing lingers |
| Interest.ForgottenSlips | src/lib/htable.c:438-439 | whenever the table has forgotten a wanted topic, taking that one back has no effect |
| Interest.TidyAgrees | src/lib/htable.c:456-462 | as written the two indexes agree all the time if and only if no client ever takes a topic back while listed for another one |
| Interest.TidyPlain | src/lib/htable.c:456-462 | and then nothing lingers |
| Broker.RegisterKeeps | src/lib/htable.c:41-111 | registration keeps the two local tables paired and apart from the distant one, and adds exactly the name it admits |
| Broker.UnregisterKeeps | src/lib/broker.c:1012-1040 | unregistration keeps the tables paired and removes exactly one name |
| Broker.DistKeeps | src/lib/broker.c:288-325 | announcements, withdrawals and refusals keep the tables paired and disjoint |
| Broker.RegisterExact | src/lib/broker.c:359-443 | a client with an ordinary name that no table knows, on a free connection, is let in whatever its tenant: both tables gain just its record and its name is announced upwards; every other one changes nothing and is refused, or not answered under the reserved name |
| Broker.UnregisterExact | src/lib/broker.c:1012-1040 | both tables lose just the record, and its name is withdrawn upwards |
| Broker.AddExact | src/lib/broker.c:288-325 | a known child is refused exactly the names that are known here; any other name is entered for it and announced upwards |
| Broker.UnregExact | src/lib/broker.c:1042-1067 | a known child withdraws a distant name: it goes, nothing else does, and the higher broker is told exactly if it was there |
| Broker.StrangersIgnored | src/lib/broker.c:489-540 | unregistered brokers change nothing and are not answered |
| Broker.RegFailExact | src/lib/broker.c:161-184 | a refusal from above takes the name, and nothing else, out of the table that holds it, and reaches just the client or the child that registered it |
| Broker.Daemon.Challok | src/lib/broker.c:359-443 | a client enters both tables and is announced, or is refused for each of the three reasons |
| Broker.Daemon.UnregCli | src/lib/broker.c:1012-1040 | the record found under one key leaves both tables and is withdrawn upwards |
| Broker.Daemon.AddDistant | src/lib/broker.c:288-325 | a new distant name is entered and passed on, a known one refused |
| Broker.Daemon.UnregDistant | src/lib/broker.c:1042-1067 | a known distant name is deleted, whoever withdraws it, and withdrawn upwards |
| Broker.Daemon.HighError | src/lib/broker.c:126-194 | errors from above go to the local client, to the child that has the name, or nowhere |
| Broker.Daemon.ForwardFromAbove | src/lib/broker.c:445-484 | exactly one thing is sent, and it is the same message one wire further; handed over if and only if the destination is local; down only to a broker that announced the name; lost if and only if at a root without an entry; never an error |
| Broker.Daemon.ForwardFromBelow | src/lib/broker.c:489-540 | exactly one thing is sent, and it is the same message one wire further; handed over if and only if the destination is local; an error if and only if at the root for a name in no table, and only to where the message came from; nothing else goes back to a child that has not announced the name |
| Broker.Daemon.SendFrom | src/lib/broker.c:729-855 | one message for a registered client, none for others; the destination and the two public flags as worked out step by step equal the reference definition of the route |
| Broker.Daemon.TenantOf | src/lib/broker.c:789-806 | the loop over the tenants finds one that the part before the dot begins with, if there is one |
| Routing.JoinSound | src/lib/broker.c:359-443 | what a registering broker says upwards brings the entries above it to what it now knows |
| Routing.LeaveSound | src/lib/broker.c:1012-1040 | the same for unregistration |
| Routing.AddSound | src/lib/broker.c:308-323 | an announcement that is new to the edge is entered, never refused, and passed on cleanly |
| Routing.UnregSound | src/lib/broker.c:1057-1065 | a withdrawal of what the edge has entered is obeyed and passed on cleanly |
| Routing.UpSound | src/lib/broker.c:489-540 | a message that comes up from q is never forwarded back down to q, and stays within its hops |
| Routing.DownSound | src/lib/broker.c:445-484 | a message that comes down goes on towards its home or turns back within its hops |
| Routing.SendSound | src/lib/broker.c:819-852 | a client's message starts towards its destination within the hop bound |
| Routing.Keeps | src/lib/broker.c:288-325 | every step of the network keeps the whole routing invariant |
| Routing.RoutingSafe | src/lib/broker.c:1706-1766 | in every reachable state, the pending messages of an edge replayed onto the entries for it give what the lower broker knows; nothing is sent back down where it came from; no message crosses more than three heights |
| Routing.TablesAgree | src/lib/htable.c:41-111 | in every reachable state the local tables hold the same records, no name is both local and distant, no name is local twice, and distant entries point towards home |
| Routing.UnregSpares | src/lib/broker.c:1061-1065 | as written a withdrawal spares the entries of other children if and only if the name is not entered for one of them |
| Routing.TwoHomes | src/lib/broker.c:1042-1067 | a name announced by one child and refused to another is deleted for the first by the withdrawal of the second |
| Network.Cluster.constructor | src/lib/broker.c:1706-1766 | one daemon of its own for every broker, in the initial state of the step system |
| Network.Cluster.Post | src/lib/broker.c:1734-1761 | what a handler sends goes onto the channels as the step system puts it there |
| Network.Cluster.Join | src/lib/broker.c:359-443 | a registration, done by the daemon, is that step of the step system |
| Network.Cluster.Leave | src/lib/broker.c:1012-1040 | so is an unregistration |
| Network.Cluster.Send | src/lib/broker.c:729-855 | so is the sending of a client |
| Network.Cluster.TakeUp | src/lib/broker.c:288-325 | so is taking in an announcement, a withdrawal or a message from below, by the daemon above |
| Network.Cluster.TakeDown | src/lib/broker.c:126-194 | so is taking in a message or an error from above, by the daemon below |
| Network.Cluster.Do | src/lib/broker.c:1706-1766 | every step keeps the routing invariant of the daemons and the channels |
| Network.Cluster.Play | src/lib/broker.c:1706-1766 | daemons driven by any run end in the state of that run |
| Network.Cluster.Live | src/lib/broker.c:1706-1766 | for any run from the start: the channels above a daemon, replayed onto the entries of the daemon above, give what it knows |
| Network.Cluster.Hush | src/lib/broker.c:822-852 | for any quiet run of the daemons: a message sent is in the log as often as it was sent once the channels run empty, delivered or returned |
| Delivery.StepConserves | src/lib/broker.c:136-159 | every step takes in and puts out each message identifier equally often |
| Delivery.Conserved | src/lib/broker.c:1734-1761 | in any run a message sent once is in exactly one place: on one channel or in one event |
| Delivery.StepSettles | src/lib/broker.c:489-540 | every reception uses up part of a bounded budget |
| Delivery.Settles | src/lib/broker.c:445-540 | once nothing new is sent only a bounded number of receptions is left |
| Quiet.SendTenants | src/lib/broker.c:756-817 | a client reaches only its own tenant or the public one unless it is public, and the flags of sending agree with the names |
| Quiet.PrefixParts | src/lib/htable.c:41-111 | a prefixed name tells the tenant and the name |
| Quiet.ShownExact | src/lib/broker.c:469-477 | the source is shown bare between two public clients or two that are not, and with its tenant otherwise |
| Quiet.DestinationExact | src/lib/broker.c:756-817 | where a message goes, for every sender: into its own tenant, to the public one by name, and from a public client to another tenant that it names if one in the list begins that name |
| Quiet.TenantsSeparate | src/lib/broker.c:469-477 | notifications, on every route, with clients coming and going: delivery only to the named client, within the tenant rule, under one shown source (for publications see ScopedDelivery.DeliverApart) |
| Quiet.InStep | src/lib/broker.c:1708-1717 | with no control message in flight a broker's entries for a child are exactly what the child knows |
| Quiet.MissingEverywhere | src/lib/broker.c:532-533 | a name unknown at the root is registered nowhere |
| Quiet.QuietDelivery | src/lib/broker.c:822-852 | with nobody coming or going each message ends as one delivery to the registered destination or one error to the sender because the name is registered nowhere, never dropped |
| Quiet.RunsEmpty | src/lib/broker.c:445-540 | from every state of the network there is a run of receptions that empties all channels |
| Quiet.QuietSettles | src/lib/broker.c:822-852 | after any quiet run some further receptions, at most the budget, empty the channels, and then each message sent is in the log as delivered or returned |
| Quiet.MissingNamed | src/lib/broker.c:836-845 | an error that reaches its sender names the missing destination without its tenant, except to a sender at the root when just one of the two is public |
| Quiet.SameCall | src/lib/broker.c:145-147 | so the name shown is the same on every route if and only if both ends are public or neither is |
| Quiet.ToldDifferently | src/lib/broker.c:836-845 | a client of tenant t that sends to public.b, which nobody has, is told public.b at the root and b elsewhere |
| Flood.PublishShares | src/lib/broker.c:621-629 | a publication gives every broker one share: done, or on exactly one copy under way |
| Flood.ArriveShares | src/lib/broker.c:1194-1231 | an arriving copy keeps every broker's share, through forwarding north, south and the dropping of echoes |
| Flood.ExactlyOnce | src/lib/broker.c:1283-1292 | in any interleaving no broker hands a publication on twice, and once no copy is left every broker has done so once |
| Flood.FloodEnds | src/lib/broker.c:1227-1231 | the copies of a publication run out after a bounded number of arrivals |
| Flood.SiblingNeedsOwnId | src/lib/broker.c:1194-1196 | a sibling is reached exactly when its identifier differs from the sender's |
| Tokens.MatchKeyword | src/cli_parser/cparser_token.c:89-113 | accepts the beginnings of the keyword, complete when it is the keyword |
| Tokens.MatchUint | src/cli_parser/cparser_token.c:134-185 | accepts exactly the beginnings of unsigned numerals, complete exactly for numerals |
| Tokens.MatchInt | src/cli_parser/cparser_token.c:194-224 | accepts exactly the beginnings of signed numerals, complete exactly for numerals |
| Tokens.MatchHex | src/cli_parser/cparser_token.c:232-257 | accepts exactly the beginnings of hexadecimal numerals, complete exactly for numerals |
| Tokens.MatchMac | src/cli_parser/cparser_token.c:320-357 | accepts exactly the beginnings of six groups of one or two hexadecimal digits, complete exactly for such words |
| Tokens.MatchIpv4 | src/cli_parser/cparser_token.c:361-402 | accepts exactly the beginnings of four octets up to 255, complete exactly for such words |
| Tokens.MatchChoice | src/cli_parser/cparser_token.c:420-440 | accepts what begins some word of the list, complete when it begins only one |
| Tokens.JudgeStarts | src/cli_parser/cparser_token.c:89-440 | for every kind of node: a token is accepted if and only if some word of the kind begins with it |
| Tokens.MatchingOne | src/cli_parser/cparser_token.c:420-440 | a choice is complete exactly if just one of its words begins with the token |
| Tokens.NumbersWritten | src/cli_parser/cparser_token.c:134-257 | numbers written in decimal, with either sign, or in hexadecimal are words of the numeric kinds |
| Tokens.AddressWritten | src/cli_parser/cparser_token.c:361-402 | four numbers written with dots between them are an address if and only if none is above 255 |
| Tokens.HardwareWritten | src/cli_parser/cparser_token.c:320-357 | six numbers written in hexadecimal with colons between them are a hardware address if and only if all are bytes |
| Tokens.SeparatorsNeeded | src/cli_parser/cparser_token.c:320-402 | addresses have three dots, hardware addresses five colons |
| Tokens.AddressStarts | src/cli_parser/cparser_token.c:320-402 | a token can be finished to an address if and only if its fields so far are in order |
| Tokens.AddressExtends | src/cli_parser/cparser_token.c:320-402 | a word that continues any such token |
| Numerals.GetHex | src/cli_parser/cparser_token.c:754-819 | succeeds if and only if the value fits the word, and then exactly |
| Numerals.HexDigitPlace | src/cli_parser/cparser_token.c:771-806 | a digit stands for its place among the sixteen |
| Numerals.HexRoundTrip | src/cli_parser/cparser_token.c:754-819 | a number written in small or capital hexadecimal is read back if it fits the word, and refused if not |
| Numerals.GetDec | src/cli_parser/cparser_token.c:583-631 | the loop with its overflow test computes the value modulo the word size as long as ten times the value held stays within a word |
| Numerals.DecExact | src/cli_parser/cparser_token.c:583-631 | every decimal numeral that fits is read exactly |
| Numerals.DecRoundTrip | src/cli_parser/cparser_token.c:583-631 | a number that fits, written in decimal, is read back |
| Numerals.DecOversize | src/cli_parser/cparser_token.c:597-600 | an oversized numeral is accepted if and only if its first digits land in the missed carry and the rest passes |
| Numerals.DecRestarts | src/cli_parser/cparser_token.c:597-600 | after a missed carry the reader goes on as if it had been given the numeral with its first digits reduced by the word size |
| Numerals.DecTaken | src/cli_parser/cparser_token.c:583-631 | which numerals are accepted, told from their digits alone: those that fit, and those whose first digits are a missed carry and that are accepted once these are reduced |
| Numerals.CarryMissed | src/cli_parser/cparser_token.c:597-600 | 4294967296 is read as 0 |
| Numerals.GetInt | src/cli_parser/cparser_token.c:676-749 | a magnitude within the word is read exactly if it fits the sign, and any success is congruent to the true value |
| Numerals.IntRoundTrip | src/cli_parser/cparser_token.c:676-749 | a number within a word, written with its sign, is read back if and only if it is in the range of signed words |
| ParserFsm.Match | src/cli_parser/cparser_fsm.c:57-106 | the child chosen is the first complete match, or else the first match; the matches are counted; complete if and only if some child matches completely or the only match is a keyword |
| ParserFsm.CompletesMatches | src/cli_parser/cparser_fsm.c:96-104 | a complete text matches |
| ParserFsm.ChosenIs | src/cli_parser/cparser_fsm.c:76-92 | which child is chosen is determined |
| ParserFsm.RejectsCharacter | src/cli_parser/cparser_fsm.c:332-354 | a character is rejected if and only if no word of a usable child begins with the token and the character |
| ParserFsm.RejectsBlank | src/cli_parser/cparser_fsm.c:283-317 | a blank is rejected if and only if the token is finished for no usable child and is not the beginning of a keyword that alone matches |
| ParserFsm.RejectsLong | src/cli_parser/cparser_fsm.c:332-354 | a token does not grow beyond 256 characters |
| ParserFsm.IgnoresBeyond | src/cli_parser/cparser_fsm.c:433-474 | nothing after the 382nd character of a line reaches the machine |
| ParserFsm.EntersFirst | src/cli_parser/cparser_fsm.c:283-317 | a blank enters the first child for which the token is finished, and pushes the token with that child and the node it came from |
| ParserFsm.TokensCut | src/cli_parser/cparser_fsm.c:433-474 | every token is what stands in the typed text where it begins, and the one being read reaches up to its end |
| ParserFsm.StaysRejected | src/cli_parser/cparser_fsm.c:433-474 | no continuation of rejected text is accepted |
| ParserFsm.AbbreviatedShow | include/cparser.h:714 | "sh" is complete beside no other keyword and not beside "shut", where "sho" is |
| ParserFsm.TypedShow | src/cli_parser/cparser_fsm.c:96-104 | "sh" and a blank enter the node of "show" where it is the only keyword, and are rejected beside "shut" |
| ParserFsm.TypeTyped | src/cli_parser/cparser_fsm.c:194-237 | typing keeps the invariant of typed text: positions, token bounds, blank tokens above the stack |
| ParserFsm.ReplayTyped | src/cli_parser/cparser_fsm.c:433-474 | text of any length leaves the machine in order, at its own length up to the limit |
| ParserFsm.EraseUndoes | src/cli_parser/cparser_fsm.c:148-382 | erasing restores the machine exactly as before the last character, in each of the three states, but for the node of a popped token |
| ParserFsm.TypeSame | src/cli_parser/cparser_fsm.c:433-474 | the stale node of a popped token never matters to typing |
| ParserFsm.EraseSame | src/cli_parser/cparser_fsm.c:433-474 | nor to erasing |
| ParserFsm.Machine.Restart | src/cli_parser/cparser_fsm.c:115-131 | the loop over the stack gives the reset machine |
| ParserFsm.Machine.EraseWs | src/cli_parser/cparser_fsm.c:148-179 | erasing white space, perhaps back into the last token |
| ParserFsm.Machine.ReadTokSpace | src/cli_parser/cparser_fsm.c:283-317 | a complete token, or the beginning of a keyword that alone matches, is pushed and its node entered, else error |
| ParserFsm.Machine.ReadTokChar | src/cli_parser/cparser_fsm.c:332-354 | a character that no child takes is taken back |
| ParserFsm.Machine.Input | src/cli_parser/cparser_fsm.c:433-522 | one step of the machine, for every state and class of character |
| Editor.Line.MakeRoom | src/cli_parser/cparser_line.c:76-81 | the characters from the cursor on move up by one, the others stay |
| Editor.Line.Insert | src/cli_parser/cparser_line.c:64-103 | the character enters at the cursor, or it is the zero character or the line is full, and the line stays |
| Editor.Line.Delete | src/cli_parser/cparser_line.c:105-141 | the character left of the cursor goes, or there is none |
| Editor.Line.NextChar | src/cli_parser/cparser_line.c:191-209 | the character passed, or none at the end |
| Editor.Line.PrevChar | src/cli_parser/cparser_line.c:211-227 | one step back, or none at the start |
| Editor.KeysOnText | src/cli_parser/cparser.c:548-640 | what insertion, erasure, the arrows and the jumps do to the text left and right of the cursor, and that no other line changes |
| Editor.RuboutInsert | src/cli_parser/cparser.c:548-575 | an erasure takes an insertion back |
| Editor.EnterLeaves | src/cli_parser/cparser_line.c:288-308 | Enter leaves the line with what completion typed at the cursor, goes on to the next of ten lines, which becomes empty, and changes no third one |
| Editor.EnterThenUp | src/cli_parser/cparser_line.c:258-285 | Up after Enter recalls the line just entered, its cursor included |
| Editor.UpDown | src/cli_parser/cparser_line.c:230-285 | Up and Down take each other back |
| Editor.UpsVisit | src/cli_parser/cparser_line.c:258-285 | n times Up goes back n lines, from the first one on to the highest one used |
| Editor.UpsAll | src/cli_parser/cparser_line.c:258-285 | as many times Up as there are lines in use visits each of them once and comes back |
| Editor.EraseInStep | src/cli_parser/cparser.c:557-562 | erasing the last of fewer than 383 characters leaves the machine in step |
| Editor.OneKey | src/cli_parser/cparser.c:548-572 | from a machine in step an insertion, erasure or arrow leaves it in step if and only if the line takes the character and line and cursor have room |
| Editor.LongLineSlips | src/cli_parser/cparser.c:557-562 | erasing the last of 383 characters leaves the machine out of step |
| Editor.NulSlips | src/cli_parser/cparser_line.c:68-70 | the zero character, which the line refuses and the machine reads, leaves it out of step |
| Editor.Cparser.constructor | src/cli_parser/cparser.c:693-736 | starts with empty lines and a machine in step |
| Editor.Cparser.PressInsert | src/cli_parser/cparser.c:549-575 | text and machine both take the character |
| Editor.Cparser.PressRubout | src/cli_parser/cparser.c:557-562 | text and machine both give one back |
| Editor.Cparser.PressLeft | src/cli_parser/cparser.c:607-614 | the cursor moves and the machine forgets one character |
| Editor.Cparser.PressRight | src/cli_parser/cparser.c:615-622 | the cursor moves and the machine reads one character |
| Editor.Cparser.PressFirst | src/cli_parser/cparser.c:623-631 | the loop back to the start |
| Editor.Cparser.PressLast | src/cli_parser/cparser.c:632-640 | the loop to the end |
| Editor.Cparser.PressUp | src/cli_parser/cparser.c:577-591 | recall of the line above, replayed up to its cursor |
| Editor.Cparser.PressDown | src/cli_parser/cparser.c:592-606 | recall of the line below, replayed up to its cursor |
| Editor.Cparser.PressEnter | src/cli_parser/cparser.c:563-571 | the rest of the line and completions go in, the machine starts over, the next line is empty |
| Editor.Cparser.Session | src/cli_parser/cparser.c:502-670 | for every sequence of keys on lines that stay short, the lines hold what the keys say and the machine is what a reset and replaying the text left of the cursor gives |
| XxHash32.RoundOne | src/hash/xxhash.c:281-284 | a round tells accumulators apart for one word, and words for one accumulator |
| XxHash32.MixWordOne | src/hash/xxhash.c:311-315 | so does the mixing of a trailing word |
| XxHash32.MixByteOne | src/hash/xxhash.c:317-321 | so does the mixing of a trailing byte |
| XxHash32.AvalancheOne | src/hash/xxhash.c:323-327 | the final scrambling is one to one |
| XxHash32.WordChangesHash | src/hash/xxhash.c:261-329 | two inputs of one length that differ in a single aligned word never have the same hash for one seed |
| XxHash32.ByteChangesHash | src/hash/xxhash.c:261-329 | the same for a byte after the last whole word |
| XxHash32.StripesAppend | src/hash/xxhash.c:569-645 | what is appended only meets what has not been used up |
| XxHash32.Xxh32 | src/hash/xxhash.c:261-364 | the loops compute the hash |
| XxHash32.State.Update | src/hash/xxhash.c:569-645 | buffering, the full buffer, the bulk loop and the remainder leave the state of everything fed so far |
| XxHash32.State.Digest | src/hash/xxhash.c:659-693 | the digest is the one-shot hash of everything fed, below 2^64 bytes |
| XxHash32.HashChunks | src/hash/xxhash.c:364-466 | however an input is cut into pieces, feeding them gives the one-shot hash |
| XxValues32.WordValue | src/hash/xxhash.c:232-238 | four bytes are read as the number they stand for, the lowest first |
| XxValues32.EmptyHash | src/hash/xxhash.c:261-329 | the published value for no input |
| XxValues32.SeededHash | src/hash/xxhash.c:261-329 | the published value for no input with a seed |
| XxValues32.SeededStart | src/hash/xxhash.c:279-284 | the four accumulators for that seed |
| XxValues32.AbcHash | src/hash/xxhash.c:261-329 | the published value for three bytes |
| XxValues32.NobodyHash | src/hash/xxhash.c:261-329 | the published value for two stripes, a word and three bytes |
| XxHash64.StripesAppend | src/hash/xxhash.c:738-817 | what is appended only meets what has not been used up |
| XxHash64.Xxh64 | src/hash/xxhash.c:367-465 | the loops compute the hash |
| XxHash64.State.Update | src/hash/xxhash.c:738-817 | the state of everything fed so far |
| XxHash64.State.Digest | src/hash/xxhash.c:829-910 | the digest is the one-shot hash of everything fed, below 2^64 bytes |
| XxHash64.HashChunks | src/hash/xxhash.c:466-501 | however an input is cut into pieces, feeding them gives the one-shot hash |
| XxValues64.LongValue | src/hash/xxhash.c:245-256 | eight bytes are read as the number they stand for, the lowest first |
| XxValues64.WordValue | src/hash/xxhash.c:232-238 | and so are four |
| XxValues64.EmptyHash | src/hash/xxhash.c:367-465 | the published value for no input |
| XxValues64.SeededHash | src/hash/xxhash.c:367-465 | the published value for no input with a seed |
| XxValues64.SeededStart | src/hash/xxhash.c:367-400 | the four accumulators for that seed |
| XxValues64.AbcHash | src/hash/xxhash.c:367-465 | the published value for three bytes |
| XxValues64.NobodyHash | src/hash/xxhash.c:367-465 | the published value for a stripe, a word and three bytes |
| Base64.ValueBack | src/lib/cencode.c:18-24 | the decoder gives back the value of every character of the alphabet |
| Base64.Alphabet | src/lib/cencode.c:18-24 | the characters are those of the standard alphabet, in its order |
| Base64.OnlyAlphabet | src/lib/cdecode.c:10-22 | no other character has a value |
| Base64.IndexInTable | src/lib/cdecode.c:17-21 | the range check keeps the index in the table for every signed char but 123 |
| Base64.BytesCount | src/lib/cdecode.c:37-82 | three bytes for every four characters of the alphabet |
| Base64.RoundTrip | src/lib/cencode.c:81-100 | decoding the text of any bytes gives them back, despite line breaks and padding |
| Base64.TextSize | src/lib/cencode.c:26-100 | the number of characters in all, line breaks and the final one included |
| Base64.TextNarrow | src/lib/cencode.c:70-74 | no line is longer than seventy-two characters |
| Base64.Padded | src/lib/cencode.c:81-100 | a last group that is not full is filled up with equals signs, and a line break ends the text |
| Base64.FooText | src/lib/cencode.c:26-100 | four test vectors of RFC 4648 |
| Base64.Encoder.EncodeBlock | src/lib/cencode.c:26-79 | writes exactly what the bytes read add to the text, entering the loop at the saved step |
| Base64.Encoder.EncodeBlockEnd | src/lib/cencode.c:81-100 | writes the rest of the text |
| Base64.Decoder.DecodeBlock | src/lib/cdecode.c:29-85 | hands out exactly the bytes that the characters complete, touching nothing above the index returned |
| Base64.EncodePieces | src/lib/cencode.c:26-100 | however the input is cut, the text is the same |
| Base64.DecodePieces | src/lib/cdecode.c:29-85 | however the text is cut, the bytes are the same |
| Base64.ThereAndBack | src/lib/cdecode.c:29-85 | any cutting of the input and any cutting of the text give the bytes back |
| ScopeKey.SetScope | src/lib/broker.c:2638-2652 | the loop strings the components together |
| ScopeKey.PiecesCut | src/lib/broker.c:906-912 | scopes are cut at every slash and nowhere else |
| ScopeKey.PiecesProper | src/lib/broker.c:906-912 | no piece is empty or holds a slash |
| ScopeKey.PiecesStrung | src/lib/broker.c:906-912 | strung together the pieces are the scope without its slashes |
| ScopeKey.PiecesOfScope | src/lib/broker.c:906-933 | taking a scope apart gives back the components it was strung together from |
| ScopeKey.OuterSlashes | src/lib/broker.c:906-912 | slashes more or less at either end change nothing |
| ScopeKey.SubscriptionKey | src/lib/broker.c:886-942 | the loop over the requested scope gives the key under which the request is filed: stars replaced, or no scope at all |
| ScopeKey.FiledExact | src/lib/broker.c:901-942 | the key of a request letter by letter, for any components, stars and no scope |
| ScopeKey.ClusterRequest | src/lib/client.c:85-98 | the scope of a cluster, at a broker of cluster 2 in region 1 |
| ScopeKey.PublicationKey | src/lib/broker.c:598-618 | the key of the audience: the public tenant for topics that begin with "public.", else the publisher's, with the broker's scope unless the topic ends with a dollar sign |
| ScopeKey.PublishedExact | src/lib/broker.c:602-618 | the key of a publication letter by letter: public or not, with a final dollar sign or not |
| ScopeKey.KeysMeet | src/lib/broker.c:886-942 | a scoped key is a prefix of another if and only if tenant and topic are equal and one scope begins the other |
| ScopeKey.NoScopeMeets | src/lib/broker.c:901-904 | without a scope the topic need only begin the other one |
| ScopeKey.RequestMeets | src/lib/broker.c:602-618 | a request meets a publication from elsewhere if and only if tenant and topic are equal and the components agree position by position, a star meaning the subscriber's own |
| ScopeKey.FiledMeets | src/lib/broker.c:598-618 | for every request (stars, no scope) and every publication (public, without scope): the filed key begins the published one if and only if the two meet, component by component |
| ScopeKey.PublicationTenants | src/lib/broker.c:598-618 | a key that a lookup finds belongs to a request of one tenant, the public one if and only if the topic begins with "public.", else the publisher's |
| ScopedDelivery.CodePrefix | src/lib/trie.c:211-224 | as bytes, strings keep their prefixes |
| ScopedDelivery.CodesMeet | src/lib/broker.c:886-942 | in the trie's terms, what a request is filed under is a prefix of what a publication is looked up by exactly when the two meet |
| ScopedDelivery.StandsWanted | src/lib/htable.c:427-464 | with conversions that carry over, a subscription stands in the trie if and only if it is wanted or, as UNSUB is written, lingers; never both |
| ScopedDelivery.Deliver | src/lib/broker.c:598-643 | at any broker, after any subscribing, taking back and leaving of clients (stars and no scope, through both indexes, as written or mended): a publication from any broker is handed, once each, to exactly the clients with a subscription that stands and meets it |
| ScopedDelivery.AsWrittenHands | src/lib/htable.c:456-462 | as UNSUB is written, a publication goes to the clients it should go to if and only if each client with a lingering subscription that meets it also wants one that does |
| ScopedDelivery.TidyHands | src/lib/htable.c:456-462 | which holds if no client takes a topic back while listed for another one |
| ScopedDelivery.SecondTakeBackLost | src/lib/broker.c:1151-1163 | a client that subscribes to a and b and takes both back is still handed b, as written, and is not with the fix |
| ScopedDelivery.DeliverApart | src/lib/broker.c:598-643 | tenant separation of publications, at every broker and after every such history: only clients of one tenant are reached, the public one if the topic begins with "public.", else the publisher's |
| Spread.StepHands | src/lib/broker.c:1181-1299 | what a step hands to a client is one for each time its broker hands the publication on while it has a subscription standing for it |
| Spread.RunHands | src/lib/broker.c:1181-1299 | over any run a client is handed a publication no more often than its broker hands it on, as often if served all the while, never if not served at all |
| Spread.HandedOnce | src/lib/broker.c:598-643 | over the whole tree, in any interleaving, while clients subscribe, take back and leave everywhere: no client is handed a publication twice; once no copy is left, each client at each broker that had a subscription standing for it all the time has been handed it exactly once |
| Quiet.UnusedCount | src/lib/broker.c:1757-1761 | an identifier not yet in use is nowhere |

## Left out

- TrieHeap.Trie.Unsubscribe: requires that the pair is subscribed or that the walk meets no stranger's node, because the source lowers the count of the node it ends at before it looks for the subscriber, skips the prefix test at the end of the data, and follows a child pointer that may be NULL.
- TrieHeap.Trie.Match: the query holds no zero byte beyond its end, which stands for the terminating zero of the caller's string that the source reads.
- TrieHeap.Trie.Tree: as for Match; a NULL list and an empty list are not told apart.
- TrieNode.Node.ToDense: the new node is the same object with new fields; allocation, freeing and moving of nodes by realloc are not modelled. The same goes for ToSparse, whose list, never set as written, is the empty one.
- SubIndex.Index.Remove: with conversions as written it requires that a listed topic is still in the trie (see SubIndex.AsWrittenCovers and SafeGone), because an unsubscription of a lost entry lowers a count that is not its own; the same goes for RemoveAll, Serve and ScopedDelivery.Deliver. With conversions that carry over nothing is required. The cursor of the list while an element is removed belongs to a library and is not part of this model.
- Broker.Daemon.Challok: only the registration part; the challenge before it is not modelled, and names are not truncated.
- Routing.RoutingSafe: brokers and edges are fixed and every broker is registered; reconnection, timeouts and the distance field of announcements are left out, and an error from above is passed down without its code frames.
- Quiet.TenantsSeparate: the tenants of clients hold no dot, because the program cuts a name at its first one.
- Quiet.QuietDelivery: says nothing of messages already in flight under other identifiers when the quiet time begins.
- Flood.ExactlyOnce: publication links forward everything; their filtering by subscription is a library's.
- Restoring the slash in topics without a scope, as shown to subscribers, is left out.
- ParserFsm.Machine.Input: a token carries its own length instead of a terminating zero, so the write of that zero beyond a token of 256 characters is not modelled; the tree is at most 31 levels deep, as an assertion of the source demands, and the privilege flag is fixed.
- Editor.Cparser.Session: lines stay short and the zero character is not typed (see Editor.OneKey); completion and help appear only as the characters they type; the callback mode for user input, printing and the execution of commands are left out.
- Tokens.MatchChoice: an independent language is not claimed, since completeness there depends on uniqueness; floating point tokens and file completion are left out.
- Numerals.GetHex: its two word sizes are one parameter, as for GetDec and GetInt.
- XxHash32.Xxh32: words are read little-endian; alignment and byte swapping on other machines are left out. Xxh64 likewise.
- Base64.Encoder.EncodeBlock: buffers hold characters, not signed bytes; negative characters are their codes above 127.
- Base64.Decoder.DecodeBlock: byte 123 does not occur in the text, because the source reads beyond its table there.
- ScopeKey.SubscriptionKey: requests longer than the broker's scope are excluded, because the source goes on with freed strings; so is truncation by fixed buffers.
- ScopeKey.PublicationKey: the empty topic is excluded, because the source reads before its start; so is truncation by fixed buffers.
- ScopedDelivery.Deliver: tenants hold no dot or slash and topics no slash, since with those keys of different tenants and topics can coincide.
- Spread.HandedOnce: as for Flood.ExactlyOnce, links forward everything; publications marked with a final dollar sign are not part of it, because the brokers they arrive at look for the slash of a scope that is not there.
- Sockets, event loops, timers, the lock-free tables, encryption, key files, the REST interface, logging and terminal output are foreign code or input and output.
- `src/hash/murmurhash.c` and the nonce arithmetic would add only easier relatives of the hash.
- `src/ddkeygen.c` calls the encoder without its end and is not part of this model.
