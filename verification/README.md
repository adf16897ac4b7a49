# libwww in Dafny

A model of eight stateful parts of the libwww client library, with proofs about whole runs of them: the
sorted tree, the choice among the addresses of a multihomed host, the multipart stream, the cache in memory,
the event manager, the FTP client, the buffered writer, and URI escaping.  Loops, fields and pointers are
modelled as loops, fields and pointers; beside each class stands a specification on values, which its methods
are proved against and the theorems are about.  `dafny verify dfyconfig.toml` checks everything.

| files | part of the library |
|---|---|
| `SortedList.dfy`, `TreeShape.dfy`, `TreeBalance.dfy`, `HTBTree.dfy` | `HTBTree.c`: insertion, cached depths, rotations, traversal |
| `HTDNS.dfy` | `HTDNS.c`: weights and the best home; fairness |
| `BoundaryAutomaton.dfy`, `HTBound.dfy`, `OutsideParts.dfy`, `MultipartMessage.dfy`, `LineByLine.dfy` | `HTBound.c`: the parser, its blocks, lines and the text outside the parts, whole messages, any text |
| `CacheAge.dfy`, `HTCache.dfy` | `HTCache.c`: freshness; table, sizes, locks, garbage collection |
| `EventOrder.dfy`, `HTEvtLst.dfy` | `HTEvtLst.c`: the queue; table, descriptor sets, callbacks |
| `FTPMachine.dfy`, `HTFTP.dfy` | `HTFTP.c`: the machines as a step relation, and in place |
| `FTPSession.dfy`, `FTPManners.dfy`, `FTPRetries.dfy`, `FTPWalk.dfy` | what it sends: the order of commands, nothing after a refusal, retries, the walk along a path |
| `FTPEnds.dfy`, `FTPServes.dfy`, `FTPOutcome.dfy`, `FTPData.dfy`, `FTPScript.dfy` | what comes of it: why a request ends, when it succeeds, what success means, the data connection, the exact commands |
| `HTBufWrt.dfy` | `HTBufWrt.c` |
| `HTEscape.dfy` | `HTEscape.c` |
| `Options.dfy` | null pointers, declined prompts and the like, for several of the others |

What comes from outside is a parameter or a choice left open: replies, read results and prompts of the FTP
client (`Env`), ready sockets, what a callback does (`Callback`), the time, the answers of targets.

Where the code does not do what one would expect, the code is modelled, the expectation is shown to fail, and
the exact condition is proved:

- A server that refuses REIN with neither 2xx nor 502 is taken to have somebody logged in ("hope the best",
  `HTFTP.c:601`).  A command other than those of the login goes out without a login exactly on the runs where
  this happens and anything is sent at all (`LoginComesFirst`, `HopeHappens`); on new connections it never
  does.
- The walk along a path replaces its first character by the root: the directories and the last argument rejoin
  to the file exactly if it begins with a slash (`RejoinsToFile`).  For the empty name, which
  `HTFTP.c:448-449` makes of a root directory, there are replies on which the walk reads past its end, whatever
  the user, the server, the type and the method; for no other name are there any (`RunsOffTheEnd`).
- A multipart body that contains a delimiter line of its own is cut there, and the close delimiter is not
  remembered (`HTBound.c:402-414`): a delimiter line in the epilogue opens a part again (`EpilogueReopens`).
  The parts come out as they went in if and only if none of them contains a delimiter line and no line of the
  preamble or, up to its last line break, of the epilogue is one without the closing dashes (`RoundTrip`).
- `HTUnEscape` leaves a stale byte at the end exactly where a lone `%` ends the string and an escape came before
  it (`StaleExactly`).  Where every `%` has two hex digits behind it, it decodes as RFC 3986 says
  (`DecodesWellFormed`), and so everything `HTEscape` makes.
- The balancing loop has only single rotations.  An insertion into an even tree leaves it even exactly if, at the
  lowest element whose subtrees come to differ by two, the higher one is higher on its outer side; otherwise the
  loop turns to and fro until it gives up (`GrowsEven`, `BentLineStaysUneven`).
- After a fallback from a file to a directory the client keeps what it noted of the file (`HTFTP.c:1286-1304`):
  the listing may count as read, or as confirmed, when only the file was (`ListingUnread`,
  `ListingUnconfirmed`).  For any other request success means both (`SuccessMeans`).
- The eleventh entry of the event queue is taken off it and not run (`QuietOnesRun`).  An entry runs for an event
  that is not registered any more exactly if the last event that was registered in its place before its turn is
  not its own (`RunsCurrent`, `GoesStale`).  Skipping an entry breaks the order of the queue exactly if the entry
  before it is not strictly higher (`SkippingKeepsSorted`).
- Appending to a cache entry, or forgetting its size, puts the total wrong by exactly the old size (`SetSize`,
  `Touch`).
- The garbage collector ends above the limit exactly if a number of hits that no unlocked entry has comes before
  enough is gone, because the sweep for it finds nothing and is the last (`CollectLeastUsed`); unlocked entries
  with more hits may be left then (`StopsAbove`).
- The comment at `HTCache.c:1061-1063` limits the time estimated from Last-Modified to 24 hours; the code has 48
  (`HTCache.c:35`), and so has the model.
- The comment at `HTEvtLst.c:393-398` says that priorities are ignored; the code orders the queue by them, and
  so does the model.

## Model

| member | source | states |
|---|---|---|
| SortedList.InsertKeepsSorted | Library/src/HTBTree.c:163-200 | for a comparer that is a total preorder, putting an object behind all it does not precede keeps a list in order |
| SortedList.InsertTies | Library/src/HTBTree.c:163-200 | objects that compare equal stay in the order in which they came, the new one last |
| SortedList.InsertAllSorts | Library/src/HTBTree.c:570-711 | adding objects one by one gives all of them, in order, equal ones in order of arrival |
| TreeShape.PlugInOrder | Library/src/HTBTree.c:502-533 | the elements of the tree from left to right are those before the path, those of the subtree, those after the path |
| TreeShape.PlugDepths | Library/src/HTBTree.c:202-227 | if the caches along a path hold up to the subtree's height, every cache in the whole tree is the true height |
| HTBTree.HTBTree.Add | Library/src/HTBTree.c:111-494 | whatever the comparer, one element is put between the others, which keep their order; caches are true heights, up inverts left and right, top is the root; the tree is the one the balancing loop makes, and if it was even it stays even if and only if the insertion does not lean inward; for a total preorder the contents are the sorted insertion |
| HTBTree.HTBTree.Attach | Library/src/HTBTree.c:156-201 | the search ends at a free place that separates the objects the new one does not precede from those it precedes |
| HTBTree.HTBTree.Grow | Library/src/HTBTree.c:154-494 | adding to a tree that has elements: links, caches, top and order afterwards |
| HTBTree.HTBTree.Next | Library/src/HTBTree.c:502-533 | the element right after the given one in order, the first for NULL, NULL after the last |
| HTBTree.HTBTree.Leftmost | Library/src/HTBTree.c:507-519 | following left links from a subtree's root ends at its first element in order |
| HTBTree.Upwards | Library/src/HTBTree.c:522-531 | following up links from the right ends at the first element after the subtree |
| HTBTree.HTBTree.Traverse | Library/src/HTBTree.c:705-710 | calling next until NULL meets every element once, in order |
| HTBTree.AddAndTraverse | Library/src/HTBTree.c:570-711 | after any number of additions the traversal gives exactly the objects added, in order, ties in order of arrival |
| HTBTree.UpdateDepths | Library/src/HTBTree.c:202-227 | the upward walk after an insertion may stop at the first cache that does not change: all caches are true heights then |
| HTBTree.UpdateDepthsAbove | Library/src/HTBTree.c:286-330 | the same for the walk of a rotation, made before the pointers are changed |
| HTBTree.RotateRight | Library/src/HTBTree.c:277-381 | a right rotation in place leaves links inverse and caches true |
| HTBTree.RotateLeft | Library/src/HTBTree.c:384-486 | a left rotation in place leaves links inverse and caches true |
| HTBTree.RotationKeepsOrder | Library/src/HTBTree.c:277-486 | a rotation anywhere in the tree changes neither its elements nor their order |
| HTBTree.Rotate | Library/src/HTBTree.c:276-486 | where the depths differ by two or more the rotation toward the lower side has the elements it needs, and keeps the order |
| HTBTree.Balance | Library/src/HTBTree.c:235-488 | balancing in place ends, by corrections left and distance to the top, with links, caches, elements and order intact, where the loop on shapes ends |
| HTBTree.Correct | Library/src/HTBTree.c:258-486 | one correction uses up one of those left, or all for a bent line, and goes the way of the loop on shapes |
| TreeBalance.EvenAtTheTop | Library/src/HTBTree.c:235-488 | off the path being climbed every element is even, so all are once the top has been passed |
| TreeBalance.GrowsEven | Library/src/HTBTree.c:235-488 | from the path alone: an insertion into a tree in which no two subtrees of an element differ by two leaves such a tree if and only if the lowest place where they come to differ does not lean inward, and the loop gives up if and only if it does |
| TreeBalance.Spins | Library/src/HTBTree.c:258-486 | a subtree that leans inward is turned to and fro until no correction is left, and the tree is uneven then |
| TreeBalance.Cured | Library/src/HTBTree.c:276-486 | one rotation gives a subtree that leans outward the height it had before the insertion |
| TreeBalance.NothingToTurn | Library/src/HTBTree.c:245-256 | where nothing differs by two, nothing is turned |
| TreeBalance.BentLineStaysUneven | Library/src/HTBTree.c:136-145 | the smallest case: an element between the two of a line of two is left in an uneven tree |
| HTBTree.GiveUp | Library/src/HTBTree.c:263-273 | the four-fold dereferences meet no null pointer, and the corrections run out exactly for a bent line of three elements |
| HTBTree.FindTop | Library/src/HTBTree.c:489-492 | climbing from anywhere ends at the root of the same tree |
| HTDNS.HTdns.constructor | Library/src/HTDNS.c:94-126 | a new entry has all weights zero |
| HTDNS.HTdns.UpdateWeights | Library/src/HTDNS.c:141-166 | the used home's weight comes nearer to the connect time, to alpha times the distance it had, all others lose a tenth, none else changes |
| HTDNS.Averaging | Library/src/HTDNS.c:152-155 | the new weight lies between the old one and the connect time, at alpha times the old distance from it |
| HTDNS.UsedConverges | Library/src/HTDNS.c:127-140 | over k uses at the same connect time the distance from it is alpha to the k times the first |
| HTDNS.AlphaCubed | Library/src/HTDNS.c:146-151 | alpha is exp(-1/3): its cube is 1/e to five places |
| HTDNS.NeverHopeless | Library/src/HTDNS.c:345 | on no run does a weight get as high as the limit for the best home |
| HTDNS.HTdns.BestHome | Library/src/HTDNS.c:343-354 | the first of the homes of least weight, or the first home if all are hopeless |
| HTDNS.DecayBound | Library/src/HTDNS.c:145-157 | an unused home's weight falls at least hyperbolically |
| HTDNS.UnusedDecays | Library/src/HTDNS.c:152-158 | over any rounds in which a home is not used its weight is its first weight decayed as often |
| HTDNS.Overtaken | Library/src/HTDNS.c:141-166 | while a home waits below (1-alpha)d, all homes used meanwhile are different and heavier |
| HTDNS.SoonUsed | Library/src/HTDNS.c:343-354 | a home below (1-alpha)d is used within as many rounds as there are homes |
| HTDNS.PatienceEnds | Library/src/HTDNS.c:145-157 | an explicit number of rounds after which any weight has decayed below (1-alpha)d |
| HTDNS.NoStarvation | Library/src/HTDNS.c:141-166 | with connect times of at least d > 0, whatever the weights, every home is used within an explicit number of rounds |
| BoundaryAutomaton.RunConcat | Library/src/HTBound.c:113-121 | input cut in two leads to the same state, parts and bodies as input in one |
| BoundaryAutomaton.ChunkingIndependence | Library/src/HTBound.c:113-121 | so does input cut anywhere, any number of times |
| BoundaryAutomaton.SkipAhead | Library/src/HTBound.c:346-377 | passing on everything up to a CR that may begin a delimiter line comes to the same as taking it byte by byte |
| HTBound.HTBoundary.constructor | Library/src/HTBound.c:468-506 | a new stream is at the start of a line, outside any part |
| HTBound.HTBoundary.OnNothing | Library/src/HTBound.c:340-378 | takes between 1 and all bytes and follows the automaton, and takes none only if a target refuses in this very call |
| HTBound.HTBoundary.NotADelimiter | Library/src/HTBound.c:300-333 | the withheld line break, dashes and boundary prefix reach the part before the byte that was no match |
| HTBound.HTBoundary.OnStartOfLine | Library/src/HTBound.c:136-146 | follows the automaton on the bytes it takes |
| HTBound.HTBoundary.OnDash | Library/src/HTBound.c:152-162 | follows the automaton on the bytes it takes |
| HTBound.HTBoundary.OnDoubleDash | Library/src/HTBound.c:168-202 | follows the automaton on the bytes it takes, without leaving the boundary string |
| HTBound.HTBoundary.OnDelimiterNonterminalCR | Library/src/HTBound.c:226-239 | follows the automaton on the bytes it takes |
| HTBound.HTBoundary.OnDelimiterDash | Library/src/HTBound.c:245-256 | follows the automaton on the bytes it takes |
| HTBound.HTBoundary.OnDelimiterTerminalCR | Library/src/HTBound.c:276-290 | follows the automaton on the bytes it takes |
| HTBound.HTBoundary.OnCR | Library/src/HTBound.c:384-400 | follows the automaton on the bytes it takes; a lone CR is content |
| HTBound.HTBoundary.ProcessBoundary | Library/src/HTBound.c:402-414 | the part ends, and another begins unless it was the last |
| HTBound.HTBoundary.Handle | Library/src/HTBound.c:115-118 | every handler consumes between 1 and all bytes and follows the automaton, or exactly one block has been refused in this call |
| HTBound.HTBoundary.PutBlock | Library/src/HTBound.c:73-129 | an accepted block of any size leaves state, parts and bodies where the byte-at-a-time automaton goes; HT_ERROR comes of one refusal during the call; it ends |
| MultipartMessage.FlushedStep | Library/src/HTBound.c:136-400 | off a delimiter line, each byte is passed on or withheld, in order: delivered plus withheld grows by it |
| MultipartMessage.NothingIsLost | Library/src/HTBound.c:136-400 | over any run, what the current part has got and what is withheld are exactly the bytes received since the last delimiter line |
| MultipartMessage.Scan | Library/src/HTBound.c:300-378 | text without a delimiter line never completes a delimiter and goes through unchanged |
| MultipartMessage.CleanPart | Library/src/HTBound.c:211-239 | a part without a delimiter line comes out whole, without the line break before the next delimiter |
| MultipartMessage.UncleanPart | Library/src/HTBound.c:168-239 | a part with a delimiter line in it comes out different, whatever follows |
| MultipartMessage.SettledForGood | Library/src/HTBound.c:402-414 | a part that has ended never changes again |
| OutsideParts.DelimiterLine | Library/src/HTBound.c:186-290 | whether a part is open or not, a line that begins with the delimiter ends it, and begins another exactly if no two dashes follow right behind, whatever padding stands on the rest of the line |
| OutsideParts.TextOutside | Library/src/HTBound.c:402-414 | outside of the parts, text adds a part if and only if one of its lines is a delimiter line without the closing dashes |
| MultipartMessage.PartsComeOut | Library/src/HTBound.c:168-290 | from a delimiter on, for every padding and every epilogue, the parts come out as they went in, and no others, if and only if each is clean and no line of the epilogue opens one |
| MultipartMessage.AtLeastAsMany | Library/src/HTBound.c:402-414 | whatever the parts are, there come out at least as many as went in |
| MultipartMessage.RoundTrip | Library/src/HTBound.c:136-415 | for every preamble, all parts, all paddings of the delimiter lines and every epilogue, a message of section 5.1.1 of RFC 2046 gives exactly its parts if and only if no part contains a delimiter line and neither preamble nor epilogue has a line that opens a part |
| MultipartMessage.ChunkedRoundTrip | Library/src/HTBound.c:113-121 | the same for the message in any pieces |
| MultipartMessage.EpilogueReopens | Library/src/HTBound.c:402-414 | a message without parts, and a delimiter line after its close delimiter, gives an empty part |
| LineByLine.WholeLine | Library/src/HTBound.c:136-415 | what any line does at any time: a delimiter line ends the part and may begin one, and any other line is content, behind the break that was kept back before it |
| LineByLine.AnyText | Library/src/HTBound.c:136-415 | for every text, message or not: the parts are what stands between its delimiter lines, each without the last line break |
| CacheAge.UsedExactly | Library/src/HTCache.c:1045-1089 | for every response and request: an entry is used if and only if it is no older than max-age allows, will be fresh for min-fresh, and is fresh or was so within max-stale |
| CacheAge.UsedWithinMaxAge | Library/src/HTCache.c:1065-1066 | with a max-age, whatever the Expires, an entry is used exactly as long as it is taken to be younger than that |
| CacheAge.UsedUntilExpires | Library/src/HTCache.c:1080-1081 | with an Expires and no max-age, an entry is used exactly as long as the time plus what it is taken to be older does not reach Expires |
| CacheAge.UsedWhileUnmodified | Library/src/HTCache.c:1072-1078 | with neither, it is used exactly as long as it is younger than a tenth of the time from Last-Modified to Date, and than 48 hours |
| CacheAge.UsedByDefault | Library/src/HTCache.c:1070-1071 | with no Last-Modified either, exactly as long as it is younger than the default |
| CacheAge.NeverUsedExpired | Library/src/HTCache.c:1910-1931 | whatever Date and Age say and whatever else the request asks for, without max-stale no entry is used at or after its Expires |
| CacheAge.NeverUsedLongExpired | Library/src/HTCache.c:1910-1931 | with max-stale none is used longer than that after Expires, or after Date if that is later |
| CacheAge.ValidationIsForGood | Library/src/HTCache.c:1910-1931 | an entry that has to be validated has to be at every later time |
| CacheAge.MinFreshLasts | Library/src/HTCache.c:1918-1929 | an entry good under min-fresh m is good without it at all times before now + m |
| HTCache.EntryUsedExactly | Library/src/HTCache.c:1848-1934 | missing metadata is an error, a partial entry asks for the rest, and any other is used if and only if it need not be revalidated and its age allows it |
| HTCache.VerdictsOverTime | Library/src/HTCache.c:1848-1934 | as long as an entry stays as it is, a verdict other than OK stays the same at every later time, and one of OK under min-fresh m holds without it before now + m |
| HTCache.Entry.BreakLock | Library/src/HTCache.c:1966-1976 | only the holder's request breaks a lock |
| HTCache.Entry.Claim | Library/src/HTCache.c:1142-1163 | an entry locked by another request keeps its lock, times and validators; any other is locked and gets new ones; size and hits stay |
| HTCache.Cache.Hash | Library/src/HTCache.c:1109-1110 | the loop over the bytes of the URL computes the hash that names the bucket |
| HTCache.Cache.Search | Library/src/HTCache.c:1122-1127 | the entry for the URL if the table has one anywhere, NULL if none has it |
| HTCache.Cache.Find | Library/src/HTCache.c:1458-1497 | the bucket search is the lookup in the map from URLs to entries, when the cache is enabled |
| HTCache.MapsOnce | Library/src/HTCache.c:1124-1140 | a URL has at most one entry in the whole table |
| HTCache.Cache.New | Library/src/HTCache.c:1094-1164 | the URL's entry, made in its bucket if there was none, and the map with it for that URL and nothing else changed; no other entry is touched; total and uniqueness are kept |
| HTCache.Cache.Remove | Library/src/HTCache.c:1999-2002 | a locked entry stays; any other goes, from the map its URL and from the total its size |
| HTCache.Cache.SetSize | Library/src/HTCache.c:1427-1448 | the total stays equal to the sum of the sizes, except that appending puts it wrong by exactly the old size; if the cache is full with the new size it is collected, so that there is room or no stale entry that could go, and otherwise it is left alone |
| HTCache.Cache.Touch | Library/src/HTCache.c:1171-1188 | the size is forgotten but not in the total, which is wrong by exactly the size the cache had for the URL, 0 if it had no entry |
| HTCache.Cache.DeleteAll | Library/src/HTCache.c:1517-1537 | an empty table, an empty map and a total of zero |
| HTCache.Cache.StoreFor | Library/src/HTCache.c:2019-2053 | the writer gives up the lock, notes whether the entry is complete and sets its size, and a cache that is full then is collected; without an entry for the URL nothing changes |
| HTCache.Cache.HitFor | Library/src/HTCache.c:2004-2012 | the URL's entry has one more hit, and nothing else changes |
| HTCache.Cache.ReleaseFor | Library/src/HTCache.c:1951-1959 | the URL's entry is free, and nothing else changes |
| HTCache.Cache.RemoveFor | Library/src/HTCache.c:1999-2002 | the URL leaves the map, and its size the total, if and only if its entry is free |
| HTCache.Cache.Perform | Library/src/HTCache.c:968-975 | what each operation may do to the map: loading sets one URL, hits and releases change nothing, a removal takes at most its URL, storing and collecting only take away, deletion empties it |
| HTCache.Cache.Run | Library/src/HTCache.c:968-975 | over any run of loads, stores, hits, releases, removals, collections and deletions without appending, the total equals the sum of the sizes and each URL is in its bucket at most once; a URL keeps its answer while nothing is loaded or removed under it, stored, collected or deleted |
| HTCache.Cache.WalkBucket | Library/src/HTCache.c:180-199 | one bucket: what goes was unlocked and could go, the rest keeps its order; unless there is room now nothing is left that could go; each entry that goes is the first of the bucket or found no room |
| HTCache.Cache.Walk | Library/src/HTCache.c:179-201 | the same for the whole table: each entry that goes was the first of its bucket, or went when the content less what had gone before it was not yet below the limit |
| HTCache.WentForRoom | Library/src/HTCache.c:195 | what each entry found when it went, said of its position in the order of removal |
| HTCache.SweepKeepsOrder | Library/src/HTCache.c:209-236 | a sweep for h hits after those for fewer keeps the hit order of everything that has gone |
| HTCache.LeftOver | Library/src/HTCache.c:209-236 | what finished sweeps leave has exactly the size of what is locked or has been hit more often, and what unfinished ones leave no less |
| HTCache.Cache.CollectLeastUsed | Library/src/HTCache.c:208-236 | the second phase ends; an entry not too big goes only when no unlocked one with fewer hits is left; it ends above the limit if and only if what is locked, or has at least as many hits as the first number that no unlocked entry has, is too much by itself; the sweeps that find something are the fewest that account for all that has gone, and none comes after that gap |
| HTCache.Cache.Garbage | Library/src/HTCache.c:153-247 | collection ends, never removes a locked entry, keeps the total exact, ends its first phase with room or no unlocked stale entry, evicts the others in hit order, and ends above the limit if and only if, of what the first phase leaves, that which no sweep up to the first gap takes is too much |
| HTCache.NothingGoes | Library/src/HTCache.c:208-236 | if every entry has been hit and none is stale or too big, nothing goes, however full the cache is |
| HTCache.StopsAbove | Library/src/HTCache.c:208-236 | there is a cache that is above the limit after a collection with only an unlocked entry in it |
| EventOrder.SkippingKeepsSorted | Library/src/HTEvtLst.c:294-298 | skipping an entry keeps the queue ordered if and only if the entry before it is strictly higher |
| EventOrder.QueuedOnce | Library/src/HTEvtLst.c:293-309 | in every queue, ordered or not, there is one thing that adding an event can do |
| EventOrder.QueuedIsPlaced | Library/src/HTEvtLst.c:294-309 | in an ordered queue the place behind the last higher entry is the place before the first that is not higher |
| EventOrder.EmptyIsPlaced | Library/src/HTEvtLst.c:275-311 | adding events of different sockets or types one by one to an empty queue is putting each before the first that is not higher |
| EventOrder.PlacedSorts | Library/src/HTEvtLst.c:275-311 | one round of distinct events makes of an empty queue all of them, by falling priority |
| EventOrder.PlacedTies | Library/src/HTEvtLst.c:293-309 | of two entries of one round with the same priority the one that was found later comes first |
| HTEvtLst.SetAgrees | Library/src/HTEvtLst.c:399-446 | registering keeps table, descriptor sets, MaxSock and queue in agreement |
| HTEvtLst.ClearAgrees | Library/src/HTEvtLst.c:474-553 | so does unregistering, which takes the socket's entries of that type off the queue |
| HTEvtLst.NoneOverlooked | Library/src/HTEvtLst.c:808-818 | the loop up to MaxSock finds every ready socket, and each is registered |
| HTEvtLst.ReadyAsFound | Library/src/HTEvtLst.c:808-818 | ready events are found by rising socket, and of one socket exceptions before writing before reading |
| HTEvtLst.EventList.constructor | Library/src/HTEvtLst.c:66-80 | nothing registered, nothing queued, all in agreement |
| HTEvtLst.EventList.SockEventsGet | Library/src/HTEvtLst.c:250-273 | the socket's entry in its bucket, made at the front if asked for; none for INVSOC |
| HTEvtLst.EventList.Register | Library/src/HTEvtLst.c:399-446 | the socket has the event for the type and everything else it had; MaxSock rises to it if it is higher; queue unchanged; all in agreement |
| HTEvtLst.EventList.ResetMaxSock | Library/src/HTEvtLst.c:366-381 | MaxSock is above all sockets in the sets, and one above the greatest, or 1 |
| HTEvtLst.EventList.EventOrderClean | Library/src/HTEvtLst.c:449-465 | the queue without the entries of the socket and type, the others in their order |
| HTEvtLst.EventList.Unregister | Library/src/HTEvtLst.c:474-553 | the socket loses the event for the type, and its entry with the last one; MaxSock is set anew only then; HT_ERROR exactly if it has no entry; all in agreement |
| HTEvtLst.EventList.UnregisterAll | Library/src/HTEvtLst.c:561-588 | nothing is left registered, queued or in a set |
| HTEvtLst.EventList.EventOrderAdd | Library/src/HTEvtLst.c:275-311 | fails exactly for what is not registered; else the entry that is there is skipped once more, or a new one is in the queue with none of higher priority behind it and one right before it unless it is first |
| HTEvtLst.EventList.Perform | Library/src/HTEvtLst.c:326 | whatever a callback registers and unregisters takes effect in turn, and the structures agree at each of its calls and afterwards |
| HTEvtLst.EventList.RunFirst | Library/src/HTEvtLst.c:320-327 | an entry is off the queue before its callback is called, and registered then |
| HTEvtLst.RunsInOrder | Library/src/HTEvtLst.c:313-332 | whatever the callbacks do, those that run are entries of the queue as it was, in its order, and no more than ten |
| HTEvtLst.AllRunRegistered | Library/src/HTEvtLst.c:313-332 | whatever the callbacks register and unregister, each entry is still registered when its turn comes |
| HTEvtLst.RunsCurrent | Library/src/HTEvtLst.c:313-332 | every entry that runs is there for the event that is registered at its turn, if and only if, for each, the last event the calls before that turn registered for its socket and type is its own, or they registered none and it was current from the beginning |
| HTEvtLst.NoneOtherIsEnough | Library/src/HTEvtLst.c:415-418 | for an entry that was current it is enough that no call registers another event for its socket and type |
| HTEvtLst.GoesStale | Library/src/HTEvtLst.c:415-418 | a callback that registers another event for the socket and type of the next entry has it run for the old one |
| HTEvtLst.BackAgain | Library/src/HTEvtLst.c:415-418 | it is not necessary that no other is registered: the entry's own may be registered after it |
| HTEvtLst.QuietOnesRun | Library/src/HTEvtLst.c:313-332 | with callbacks that return HT_OK and leave the module alone the first ten run, the eleventh is lost, the rest stay |
| HTEvtLst.EventList.ExecuteAndDelete | Library/src/HTEvtLst.c:313-332 | it ends; each entry that runs is registered when it runs; it stops at the first that does not return HT_OK, and leaves what the callbacks leave |
| HTEvtLst.EventList.Round | Library/src/HTEvtLst.c:808-819 | one turn of the loop, from any queue: no ready event is an error, all are entered in the order of sockets, and the queue is run; result, table and queue are those of the run; from an empty queue with quiet callbacks the ten highest run, in order |
| FTPSession.RunIsPolite | Library/src/HTFTP.c:535-1590 | over all replies and prompts every event is allowed where it occurs |
| FTPSession.RunLinked | Library/src/HTFTP.c:535-1590 | on every run the substate and sent tell what has passed: a command that waits for its reply is the last event, and a machine after the login means that the server has let the user in or refused REIN |
| FTPSession.HandOver | Library/src/HTFTP.c:1540-1580 | on every run, a change of phase that is no error leaves substate 0 and sent NO, and the last thing on the connection is no command |
| FTPSession.CommandOrder | Library/src/HTFTP.c:535-1330 | on every run each command waits for the end of the one before; PASS follows a 3xx to USER, ACCT a 3xx to PASS, REIN comes first; the login's commands are sent exactly before, all others exactly after, the server has let the user in or refused REIN |
| FTPSession.LoginComesFirst | Library/src/HTFTP.c:579-608 | every other command follows a successful login if and only if no refused REIN is followed by a command |
| FTPSession.NewConnectionsLogIn | Library/src/HTFTP.c:553-577 | on a new connection it always does |
| FTPSession.HopeHappens | Library/src/HTFTP.c:600-602 | there are runs on which it does not |
| FTPSession.LoginIsAccepted | Library/src/HTFTP.c:714-755 | on every run, while the client logs in, the next step goes on to the data connection if and only if the server has let the user in or refused REIN |
| FTPManners.NoPushing | Library/src/HTFTP.c:535-1330 | on every run, no command follows a bad greeting, a reply that is not positive where one is needed, or a lost connection, except SYST, PORT and a listing after a file that could not be had |
| FTPRetries.RunSpends | Library/src/HTFTP.c:763-1330 | from any state, what is sent on any run is within what that state has left to do |
| FTPRetries.BoundedRetries | Library/src/HTFTP.c:763-1330 | every run has at most one swap to PORT, one fallback to a directory, one each of TYPE, PASV, PORT, SYST and PWD, three transfer commands, and one CWD for the root and each slash |
| FTPWalk.WalkRejoins | Library/src/HTFTP.c:1172-1198 | for every file, at every transfer command the directories visited and its argument, in order, make up the file after its first character, none with a slash in it; no slash is left in the argument when the walk is over |
| FTPWalk.RejoinsToFile | Library/src/HTFTP.c:1176-1184 | with the root they make up the file itself if and only if it begins with a slash |
| FTPWalk.StaysInRange | Library/src/HTFTP.c:1172-1198 | on no run does the walk leave a name that is not empty |
| FTPWalk.RunsOffTheEnd | Library/src/HTFTP.c:1176-1186 | for every user, server, type and request, some run reads past the end of the name if and only if the name is empty |
| FTPEnds.StepFalls | Library/src/HTFTP.c:1436-1590 | every step of a client at work brings its end nearer by what is left to try and the steps left in its phase, except one that waits or asks the user, which puts it off by a constant |
| FTPEnds.RequestEnds | Library/src/HTFTP.c:1436-1590 | a client is at work for less than 101 steps and three for each slash of the file, with two more for each wait and five for each prompt |
| FTPServes.GoesWellEndsWell | Library/src/HTFTP.c:1436-1590 | a run in which server, user and network give no cause to give up never fails, and when it is long enough has succeeded, whatever waits and prompts there are |
| FTPOutcome.SuccessMeans | Library/src/HTFTP.c:1133-1312 | success comes only after a transfer command that the server took on: STOR exactly for uploads, a listing for directories, LIST exactly for servers that list in full; and unless a file was asked for and a directory came, the data were read or sent to their end and the server has said 2xx since it took the transfer on |
| FTPOutcome.ListingUnread | Library/src/HTFTP.c:1286-1304 | a run that succeeds with a listing whose data were not read |
| FTPOutcome.ListingUnconfirmed | Library/src/HTFTP.c:1286-1304 | a run that succeeds with a listing after which the server has said nothing |
| FTPData.RightChannel | Library/src/HTFTP.c:1093-1131 | on every run the data pass over a connection opened since the client turned to them, the way agreed on last; a passive one before the transfer is asked for |
| FTPData.FallsBack | Library/src/HTFTP.c:1560-1572 | a transfer that fails is followed by a try for a directory if and only if it was a download, not of a directory, the server has not just said 550 after the walk, and the data have not broken off |
| FTPScript.FollowsScript | Library/src/HTFTP.c:535-1330 | to a server that obliges, whatever it knows and asks for, the client sends exactly the commands of the script, arguments included, and succeeds in time |
| FTPScript.SystNames | Library/src/HTFTP.c:961-981 | which text of a reply to SYST makes it which server |
| FTPScript.PwdNames | Library/src/HTFTP.c:1018-1037 | which directory in a reply to PWD makes it which server |
| HTFTP.FtpClient.HTFTPLogin | Library/src/HTFTP.c:535-755 | each arm, in place, is a step of the machine and says what the step says |
| HTFTP.FtpClient.HTFTPDataConnection | Library/src/HTFTP.c:763-905 | each arm, in place, is a step of the machine and says what the step says |
| HTFTP.FtpClient.HTFTPServerInfo | Library/src/HTFTP.c:916-1062 | each arm, in place, is a step of the machine and says what the step says |
| HTFTP.FtpClient.HTFTPGetData | Library/src/HTFTP.c:1072-1330 | each arm, in place, is a step of the machine and says what the step says |
| HTFTP.FtpClient.FTPEvent | Library/src/HTFTP.c:1419-1594 | over any sequence of events, in however many calls, the client goes through the run of the machines and logs its trace |
| HTFTP.HTLoadFTP | Library/src/HTFTP.c:1346-1594 | a request from its beginning, in place: on its log the commands are in order, login comes first unless a refused REIN is followed by a command, nothing follows a refusal, no command is sent more often than it should be, the walk rejoins, and to a server that obliges it is the script; it ends within the bound, has succeeded only if the transfer has, over the right connection, and fails only for a cause |
| HTBufWrt.BufferWriter.AddBuffer | Library/src/HTBufWrt.c:136-155 | there is room for the pending block behind everything buffered |
| HTBufWrt.BufferWriter.Flush | Library/src/HTBufWrt.c:47-57 | all is sent, or all is kept, or the target has failed and the buffer is lost |
| HTBufWrt.BufferWriter.FlushEvent | Library/src/HTBufWrt.c:59-77 | a timed flush loses nothing unless the target fails, and leaves nothing unless it refuses |
| HTBufWrt.BufferWriter.LazyFlush | Library/src/HTBufWrt.c:79-134 | nothing is lost unless the target fails, which is an error; with no delay allowed HT_OK means that all is sent, and HT_WOULD_BLOCK that all is kept; else a timer is set, or an expired one sends all unless the target refuses |
| HTBufWrt.BufferWriter.Write | Library/src/HTBufWrt.c:168-212 | it ends, and bytes sent followed by bytes buffered are all bytes ever written, in order, whatever the target answers; what was sent stays sent; a target that is only not ready is no error; with no refusal at most one buffer size is unsent |
| HTBufWrt.BufferWriter.FillAndFlush | Library/src/HTBufWrt.c:191-210 | the same for one round, which ends the loop or brings its end nearer |
| HTEscape.EscapedLength | Library/src/HTEscape.c:67-70 | the size computed by the first pass is the size the second fills |
| HTEscape.Escape | Library/src/HTEscape.c:60-83 | the new string is filled to its last byte with each byte or its escape, in order, and the terminator |
| HTEscape.EscapedIsSafe | Library/src/HTEscape.c:72-80 | only bytes the mask accepts and escapes of two upper-case digits are left, for every mask |
| HTEscape.TableOfMasks | Library/src/HTEscape.c:31-39 | each mask lets through the unreserved characters of RFC 3986 but the tilde, `@` and `*`, and one more character than the mask before it |
| HTEscape.OnlyOfUris | Library/src/HTEscape.c:31-39 | no mask lets through what is neither unreserved nor reserved in RFC 3986 |
| HTEscape.UnEscape | Library/src/HTEscape.c:101-130 | the write index never passes the read index, and nothing behind the result changes |
| HTEscape.DecodesWellFormed | Library/src/HTEscape.c:110-125 | where two hex digits of either case follow every percent sign, each escape becomes 16 times the first digit's value plus the second's and all else stays, wherever it is written |
| HTEscape.StaleExactly | Library/src/HTEscape.c:110-125 | the last byte comes from a place whose byte has been decoded already if and only if a lone percent sign ends the string and an escape came before it; no other result depends on what is overwritten |
| HTEscape.StaleByte | Library/src/HTEscape.c:111-117 | an example: the byte left over from an escape shows again |
| HTEscape.RoundTrip | Library/src/HTEscape.c:60-130 | unescaping undoes escaping for every string and mask |
| HTEscape.EscapeAndBack | Library/src/HTEscape.c:60-130 | the same for the strings in memory |

## Left out

- HTBTree: the free functions are left out.
- HTDNS: exact reals stand for `double`.  The table of hosts, its timeout and the resolver are left out; `IsRun` is the caller's habit of using the best home and reporting the connect time.
- HTBound.HTBoundary.PutBlock: an error of a target ends the block as in the code, but nothing is said of the state it leaves; the byte counters saved and restored around the loop and the MIME parser behind the target are left out.
- MultipartMessage.RoundTrip: boundaries with a CR, which section 5.1.1 of RFC 2046 does not allow, are left out.
- HTCache.Cache.Run: touching an entry and appending to one are no operations of a run, because they put the total wrong; what they do to it is said of each call.
- HTCache: files, the index, metadata on disk and the filters are left out; a table that has not been allocated is an empty one.  Sizes and hits are unbounded integers.  The two loops over the table, which differ only in what they remove, are one method.
- HTCache.Entry.GetLock: excludes nobody, because the code overwrites any holder.
- HTEvtLst: the types with an index of their own are READ, WRITE and OOB; timers, the Windows branches and the call of select are left out.  The entries of the table are values in their buckets, not shared records; events are numbers with a priority.
- HTEvtLst.EventList.UnregisterAll: is not among the calls of a callback, because it frees the list that is being run.
- HTEvtLst.EventList.Round: order across rounds is not claimed, because skipping raises a priority without moving the entry.
- HTFTP: sending succeeds; CLOSE and TIMEOUT events, `SendCommand` that fails or blocks, the status line parser and unescaping of arguments are left out.  The fields of the two structures are kept in two records of the client.  A call of `HTFTPLogin` and its like is one round of the loop in the code.
- HTBufWrt: a target that fails for ever would keep the write loop going for ever; it fails finitely often here.  Sizes are unbounded integers.
- HTEscape: the branches for a NULL argument and the EBCDIC conversions, which are the identity here, are left out.
