# Verified models of the honeypot sensor and the C2 engine

This project models the stateful engines of the repository in Dafny and proves what each of them keeps over
whole runs. There is one module per source file or component. Where a source object updates its fields, the
model is a class whose methods are proved equal to a step function; the whole-run statements are lemmas about
that function. `dafny verify dfyconfig.toml` checks the project.

**TFTP client** (`Tftp`). The client faces an honest server over a network that drops, duplicates, delays and
reorders packets. The server answers from a transfer identifier of its own choice and accepts only acknowledgements
sent there, byte by byte as RFC 1350 lays them out (sections 2, 4, 5 and 6). What the client has written is always
the acknowledged prefix of the file; success is possible exactly when the file fits in 65535 blocks. Over whole
histories every packet sent, its destination and the end of the transfer follow from what was received. Progress is
not promised: a pending client has no retransmission timer exactly when the last datagram it looked at took it away.

**Reason layer and feed** (`Entities`, `Search`, `Reason`, `Feed`). A pass pages a group-by over an append-only
ledger, upserts and deletes by age. Every field of an entity is characterised by the retained rows of its host and by
what VirusTotal and intel say about what these hold. Rows may arrive between two pages: a pass then leaves every host
retained when it began and none that is not when it ends, and each entity is the group-by of the ledger as one of its
pages read it. After every pass in which none arrive, whatever the run before it did, the index is the direct
group-by of the retained rows, and a host qualifies for the feed by its own evidence alone.

**Intel cache and matcher** (`Intel`, `IntelCache`, `IntelRefresh`). Refreshes replace a feed's generation by its
download; a paged load fills three dictionaries; a match answers like a linear scan, from the indicators as they
stand in the feeds to the names it returns. Every stamp search, store, download and load may fail, and a refresh that
raises leaves the matcher to the next pass as it is. Three claims hold under exact conditions only. The dictionaries
lose an indicator exactly when it has no host and another feed lists its value later. The cache is always the last
download of every feed exactly when the time to live is positive, every started store completes, and no refused stamp
search leads to a second download within one second. The dictionaries in memory are always those of the cache exactly
when no store, stamp search, parser or load fails.

**VirusTotal resolver** (`Vt`). A budget, a memo for the pass and a persistent cache with a time to live. Each asked
hash gets its fresh stored verdict or what the service answers; it goes without only if the service gives none or may
not be asked any more. A cache search that is refused counts as an empty cache, and a verdict may be lost on its way
to the store: these are the only two reasons for looking a hash up again early.

**CNAME resolver** (`Cname`). A depth-first search over any finite record graph, cyclic or not, with one shared
visited set; it finds the first address in record order. The AAAA branch calls a method its record type lacks, which
the original catches as a failed lookup; so does the model.

**TLS ClientHello parser and tty log** (`Bytes`, `ClientHello`, `TtyLog`). Two binary formats with nested
lengths, their round trips, and what is read of messages and logs that are cut off anywhere (sections 4.1.2, 4.2 and
4.2.3 of RFC 8446, section 3.1 of RFC 7301). The reader of tty logs raises exactly when it meets a header with a
length below -1.

**VM pool** (`PoolService`, `PoolRuns`, `PoolClients`, `PoolIds`, `PoolExclusive`, `PoolLoop`). The producer loop runs
step by step, with consumers' calls and new configurations between any two steps; undisturbed, the steps make up the
loop. Over every run a guest's connections, clients and release time are those of the calls that reached it. Guest
stages are not monotone: a freed guest returns to `used` from any stage. Guests always serve one client only exactly
when runs neither share guests nor hand them back for reuse. Ids restart at 252, so freeing an id, at once or after
further events, can release another guest than the granted one: exactly when that is no longer listed and another has
its id, or when one listed before it was created a multiple of 252 creations earlier. A run to such a pool is
constructed.

**Limiters and queues** (`RateLimiter`, `AbuseIpdb`, `Discord`). Each is compared with a history that forgets
nothing. The documented bound on tracked keys in the rate limiter is false below 19 keys, and under every
configuration enough fresh keys drive a key out and lift the bound on its requests; the AbuseIPDB clean-up forgets
addresses seen only once, so reports are counted from the creation of the entry.

**Ingest** (`Forward`, `Ingest`, `IngestRuns`). Frames of the Fluent forward protocol, normalisation, and
at-least-once storage with any number of connections whose writes interleave. The documentation says that a
record that cannot be enriched never wedges its chunk; that is false exactly for records that leave no documents
which can all be written: `hp_data.files` is true and cannot be iterated, a msgpack time stamp sits at some depth,
where `json.dumps` raises, or the field that dates the document is a number outside the years 1 to 9999, such as
milliseconds since the epoch. A chunk can also wedge itself: it is decoded with surrogate escapes but packed
strictly, so a frame whose chunk is text that is not UTF-8 (section 4 of RFC 3629) has all its records stored, is
not acknowledged, and is stored once more at every retry.

**Small algorithms** (`Tail`, `Shell`). The backward block scan for the last lines of a file, and the bounded
unwrapping of shell payloads.

I/O, clocks and foreign code are parameters: the times of events, the outcome of each write, search, download or
lookup, what a backend creates, msgpack, gzip, SHA-256, URL and IP address parsing, and one layer of shell
unwrapping. Time units and second stamps shared by the modules are in `Times`.

## Model

| member | source | states |
|---|---|---|
| Tftp.TftpClient.DatagramReceived | sensor/cowrie/src/cowrie/commands/tftp.py:107-130 | the state and the packets sent after any datagram: the peer's address is learnt once, the timer is cancelled and the retry count reset before the opcode is looked at |
| Tftp.TftpClient.HandleData | sensor/cowrie/src/cowrie/commands/tftp.py:132-163 | the expected block is written and acknowledged, a repeated one only acknowledged, any other ignored; a short block ends the transfer |
| Tftp.TftpClient.HandleTimeout | sensor/cowrie/src/cowrie/commands/tftp.py:188-202 | the request or the last acknowledgement is sent again until the retries are used up |
| Tftp.TransferSafe | sensor/cowrie/src/cowrie/commands/tftp.py:107-163 | in every state of every run over a faulty network the artifact is the first 512 bytes per acknowledged block of the file, the byte count is its length, and success means the whole file |
| Tftp.SuccessExactlyWhenFileFits | sensor/cowrie/src/cowrie/commands/tftp.py:94-163 | whatever transfer identifier the server serves from, some run succeeds if and only if the file fits in 65535 blocks, because the expected block number never wraps; every success delivers the file |
| Tftp.PacketsOnWire | sensor/cowrie/src/cowrie/commands/tftp.py:79-105 | read requests and acknowledgements are laid out as the standard says |
| Tftp.RepliesGo | sensor/cowrie/src/cowrie/commands/tftp.py:79-202 | in every history an input is answered by at most one packet: an acknowledgement of the block then held, to the sender of the first datagram, for that block or the next one or at a first or second time-out in a row; or the read request, to the server's port, at a time-out before any block |
| Tftp.EndsExactlyWhen | sensor/cowrie/src/cowrie/commands/tftp.py:107-202 | in every history an input ends the transfer if and only if it is the expected block with less than 512 bytes, the third time-out in a row or an error packet of at least five bytes; only the expected block adds to the artifact, and nothing stays armed |
| Tftp.TimerLostExactlyWhen | sensor/cowrie/src/cowrie/commands/tftp.py:120-130 | a datagram leaves a waiting client unfinished and without a timer if and only if it is an out-of-order block, a four-byte error or has an unknown opcode |
| Tftp.TimerGoneExactlyWhen | sensor/cowrie/src/cowrie/commands/tftp.py:107-202 | over every history of a client its transfer is pending without a timer if and only if one of the datagrams since its last packet took the timer away and only datagrams under four bytes, which are not looked at, came after it |
| Tftp.RunPlays | sensor/cowrie/src/cowrie/commands/tftp.py:79-202 | every run of client, network and server gives its client such a history, ending in the same state |
| Tftp.ProgressCanStop | sensor/cowrie/src/cowrie/commands/tftp.py:120-130 | a run in which one stray datagram stops the transfer before its first block |
| RateLimiter.RateLimiter.Check | sensor/cowrie/src/cowrie/core/rate_limiter.py:43-80 | one call does a step of the specification: global clean-up when due, clean-up of the key, eviction above the limit, decision and record |
| RateLimiter.RateLimiter.CleanupAll | sensor/cowrie/src/cowrie/core/rate_limiter.py:82-100 | every key keeps exactly its timestamps inside the window, and keys left without any are dropped |
| RateLimiter.RateLimiter.RemoveOldestKeys | sensor/cowrie/src/cowrie/core/rate_limiter.py:102-120 | a least recently active tenth of the keys, at least one, is removed and nothing else changes |
| RateLimiter.CheckRefinesFullHistory | sensor/cowrie/src/cowrie/core/rate_limiter.py:54-80 | in any run with a clock that never goes back every denial is justified by the full history, and a key not evicted within the window is granted if and only if fewer than the maximum of its earlier grants lie in the window |
| RateLimiter.WindowBound | sensor/cowrie/src/cowrie/core/rate_limiter.py:74-80 | any `max_requests + 1` successive grants to a key span at least the window, unless the key was evicted between the first of them and the last |
| RateLimiter.EvictionLiftsBound | sensor/cowrie/src/cowrie/core/rate_limiter.py:54-120 | under every enabled configuration with a positive limit and window there is a run in which enough fresh keys evict a key that is then granted `max_requests + 1` requests within half a window |
| RateLimiter.CleanupInvisible | sensor/cowrie/src/cowrie/core/rate_limiter.py:82-100 | the global clean-up changes the live timestamps of no key, now or later |
| RateLimiter.TidiedExactlyWhen | sensor/cowrie/src/cowrie/core/rate_limiter.py:54-59 | the global clean-up comes when more than a window has passed since the last one |
| RateLimiter.RunKeepsBound | sensor/cowrie/src/cowrie/core/rate_limiter.py:70-72 | no run tracks more than the larger of `max_keys` and 19 keys |
| RateLimiter.MaxKeysHoldsExactlyWhen | sensor/cowrie/src/cowrie/core/rate_limiter.py:102-120 | the documented limit on tracked keys holds over all runs if and only if it is at least 19: a fresh key at overflow may be the one evicted, and is then put back |
| Vt.VtResolver.VerdictsFor | src/c2engine/services/reason/vt.py:134-166 | the pass state becomes that of resolving each wanted hash cache first and then within the budget; a refused search counts as an empty cache, a search or store that raises ends the call; the verdicts returned are those in the memo, in the order asked |
| Vt.ResolveWanted | src/c2engine/services/reason/vt.py:150-165 | dropping repeated, blank and known hashes first, as the code does, gives the same result as going through all of them |
| Vt.RequestKeepsInvariant | src/c2engine/services/reason/vt.py:134-166 | budget plus lookups is constant, lookups never exceed the budget at the start, no hash is looked up twice in a pass, nor while its stored verdict is fresh unless the search was refused, none while the client is disabled or after the key was rejected; each stored verdict says what the service answered, and a hash is without one only if the service gave none or may not be asked |
| Vt.PassKeepsPromises | src/c2engine/services/reason/vt.py:106-166 | the same for a whole pass, whatever is asked in it and wherever it raises |
| Vt.VerdictsMean | src/c2engine/services/reason/vt.py:134-166 | whatever a pass did before, a request that does not raise returns for each hash what the service answered if it was asked, and else the fresh stored verdict; a fresh stored verdict is always used where the search answers |
| Vt.RequestRaisesExactlyWhen | src/c2engine/services/reason/vt.py:134-166 | a request raises if and only if its search breaks while some hash is not known yet, or storing a verdict it gets raises |
| Vt.FreshExactlyWhen | src/c2engine/services/reason/vt.py:125-132 | a verdict is fresh for less than 30 days |
| Vt.KnownInOrder | src/c2engine/services/reason/vt.py:166-166 | the verdicts come in the order in which the hashes are asked for |
| Vt.VerdictStays | src/c2engine/services/reason/vt.py:125-166 | once a lookup has stored its verdict, every later pass keeps one that is at least as recent |
| Vt.LookupsFarApart | src/c2engine/services/reason/vt.py:125-166 | over any sequence of passes a hash whose lookup gave a verdict is not looked up again before the time to live of that verdict has ended, unless the verdict was lost on the way to the store or the search before the later lookup was refused |
| Vt.LooksUpTooEarly | src/c2engine/services/reason/vt.py:134-166 | both exceptions occur: after a refused search a hash is looked up whatever the store holds, and after a lost verdict the next pass looks it up again |
| Vt.SummarizeMeans | src/c2engine/services/reason/vt.py:169-179 | the rollup covers exactly the verdicts VirusTotal knows: their greatest ratio and detection count, each attained, and all their families |
| Search.AfterIsRest | src/c2engine/services/reason/intel.py:287-317 | continuing a sorted search after the last key of a page gives exactly the rest of the keys: nothing is repeated or skipped |
| Search.InOrderUnique | src/c2engine/services/reason/intel.py:290-296 | the sorted list of a set of keys is the only ascending list of its members |
| Search.Page | src/c2engine/services/reason/intel.py:290-304 | a search returns the first keys beyond the cursor, in order, up to the page size |
| Search.StringLessMeans | src/c2engine/services/reason/intel.py:290-296 | texts are ordered by the first character in which they differ, prefixes first |
| Intel.MakeIocWellFormed | src/c2engine/services/reason/intel.py:63-94 | a built indicator has a lower-case value unless it is an address, and the host its value matches on |
| Intel.MakeIocMeans | src/c2engine/services/reason/intel.py:63-94 | an indicator is found by an address without its port, a domain or the host of a URL, in lower case and without blanks around it, and holds its own value in lower case unless it is an address |
| Intel.CleanMeans | src/c2engine/services/reason/intel.py:73-76 | malware names and tags lose blanks around them, and empty ones and "none" are dropped |
| Intel.BuildMeans | src/c2engine/services/reason/intel.py:305-313 | after indexing any list the URL and hash dictionaries hold the last indicator of each value, and the host dictionary exactly the indicators of each host |
| Intel.HitsCorroborate | src/c2engine/services/reason/intel.py:345-371 | every hit of a match corroborates the entity: its URL, its own host, one of its resolved addresses, the host of one of its URLs, or one of its hashes |
| Intel.MatchIsScanExactlyWhen | src/c2engine/services/reason/intel.py:345-378 | the dictionaries give the sources, malware and tags of a linear scan for every query if and only if no URL or hash without a host is listed again later by another feed |
| Intel.HiddenIsMissed | src/c2engine/services/reason/intel.py:305-313 | such an indicator is missed by the query for its own value |
| IntelCache.DocIdInjective | src/c2engine/services/reason/intel.py:270-272 | documents of different feeds or values never share an id, as feed names hold no colon |
| IntelCache.StoreReplacesExactlyWhen | src/c2engine/services/reason/intel.py:270-278 | a completed store replaces the feed's generation by the download if and only if no document with the same stamp and another value is left over; other feeds keep theirs |
| IntelCache.FailedPurgeMixes | src/c2engine/services/reason/intel.py:267-278 | when the delete raises, the feed's documents are the download and every old one that was not listed again and either bears the new stamp already or was not yet deleted |
| IntelCache.PurgeFailureLeaves | src/c2engine/services/reason/intel.py:322-343 | such a round ends there, with the cache as that store left it, and the feed looks as fresh as the download |
| IntelCache.MixedGenerationsStay | src/c2engine/services/reason/engine.py:207-214 | until the time to live ends, no rounds in which the feed's stamp searches answer touch its mixed generations, whatever it would answer and whatever else fails |
| IntelCache.LoadedIsServed | src/c2engine/services/reason/intel.py:280-320 | what is loaded is well formed and holds no value of a feed twice |
| IntelCache.LoadIsComplete | src/c2engine/services/reason/intel.py:289-319 | a load reads as many indicators as the cache holds, up to the cap, and below the cap every one |
| IntelCache.IntelMatcher.LatestFetched | src/c2engine/services/reason/intel.py:249-265 | the newest stamp among the documents of a feed; none if and only if it has no document or the search is refused; raises where the search raises |
| IntelCache.IntelMatcher.Store | src/c2engine/services/reason/intel.py:270-278 | upserts the download under the new stamp, then deletes the feed's documents with another stamp; a write or delete that raises leaves any part of its work done, and the delete is not begun after a failed write |
| IntelCache.IntelMatcher.LoadIndexes | src/c2engine/services/reason/intel.py:280-320 | page after page, the dictionaries become those of the whole cache in sort order, up to the cap or to the search that is refused or raises; only a raise leaves the matcher not marked as loaded |
| IntelCache.IntelMatcher.Refresh | src/c2engine/services/reason/intel.py:322-343 | every feed that is stale or whose stamp search was refused is downloaded and stored, and the dictionaries are rebuilt if anything changed or nothing was loaded yet; the first search, parser or store that raises ends the refresh before that |
| IntelCache.IntelMatcher.MatchEntity | src/c2engine/services/reason/intel.py:345-378 | the match is the aggregate of the hits by URL, by candidate host and by hash |
| IntelCache.MemoryFollowsCache | src/c2engine/services/reason/intel.py:322-343 | over all refresh runs in which no store, stamp search, parser or load fails the dictionaries in memory are those of the present cache |
| IntelCache.RemembersExactlyWhen | src/c2engine/services/reason/intel.py:322-343 | over all runs with given kinds of faults that holds if and only if stores, stamp searches, parsers and loads are not among them |
| IntelCache.FaultForgets | src/c2engine/services/reason/engine.py:207-214 | each of these faults leaves old dictionaries in the matcher that the next pass uses |
| IntelCache.CacheIsLastDownload | src/c2engine/services/reason/intel.py:267-278 | with a positive time to live, while started stores complete and no refused stamp search leads to a second download in one second, each feed's cached documents are exactly its last stored download, whatever else fails |
| IntelCache.CoherentExactlyWhen | src/c2engine/services/reason/intel.py:249-278 | over all runs with given kinds of faults that holds if and only if the time to live is positive, stores do not raise, and no refused stamp search leads to a second download in one second |
| IntelCache.MatchesLastDownloads | src/c2engine/services/reason/intel.py:322-378 | end to end, in a run in which no store, stamp search, parser or load raises and no refused search leads to a second download in one second, an indicator is a hit if and only if it is in its feed's last download and corroborates the entity, below the cap and when nothing is hidden |
| IntelRefresh.MatchSays | src/c2engine/services/reason/intel.py:322-378 | in such a run a match names exactly the feeds whose last download corroborates the entity, and exactly their malware names and tags for it |
| IntelRefresh.StaleExactlyWhen | src/c2engine/services/reason/intel.py:249-268 | a feed is stale if and only if its newest document is at least the time to live old, or it has none |
| IntelRefresh.StaleFeedIsReplaced | src/c2engine/services/reason/intel.py:322-343 | in a refresh without faults each stale feed that can be downloaded holds exactly its download afterwards, and the dictionaries are rebuilt from the whole cache |
| IntelRefresh.EnabledExactlyWhen | src/c2engine/services/reason/intel.py:192-217 | refreshes go on until a server that is asked rejects the key; from then on they change nothing |
| IntelRefresh.RaisesExactlyWhen | src/c2engine/services/reason/intel.py:322-343 | a refresh raises before its load if and only if, for a feed it comes to, the stamp search, the parser or the store raises; the dictionaries in memory are then left as they were |
| IntelRefresh.LoadIsOrdered | src/c2engine/services/reason/intel.py:287-304 | indicators are loaded by value, and those of one value by feed |
| Reason.OverlayKeepsStage | src/c2engine/services/reason/engine.py:55-85 | the stage is that of the evidence rank whatever toolkits, VirusTotal and intel add, and signals are only added |
| Times.StampMeans | src/c2engine/services/reason/engine.py:96-98 | a stamp is the last whole second up to a time |
| Reason.EntityMeans | src/c2engine/services/reason/engine.py:55-171 | every field of an entity is that of the retained ledger rows of its host: first and last sighting, count and top rank, each bound attained by a row; the numbers of distinct sensors, addresses and files; families, toolkits and every signal, the known-malware one if and only if a row has a listed hash; and what VirusTotal says about its files and intel about its host, addresses, URLs and files |
| Reason.SinceMeans | src/c2engine/services/reason/engine.py:96-98 | the retention limit is 30 days ago, to the second |
| Reason.ReasonJob.UpsertHosts | src/c2engine/services/reason/engine.py:114-191 | page after page of 500 keys, each from the ledger as it is by then, the index becomes that of the paged reading, and the upserts are counted |
| Reason.ReachedOnce | src/c2engine/services/reason/engine.py:114-191 | no host is upserted twice in a pass, whatever arrives between its pages |
| Reason.ReasonJob.RunOnce | src/c2engine/services/reason/engine.py:88-199 | a pass reads page after page while rows arrive and then drops what was last seen before the retention limit; if none arrive it merges the group-by into the index, one upsert for each retained host |
| Reason.PassedMeans | src/c2engine/services/reason/engine.py:114-193 | if every stored last sighting is some row's time, a pass leaves every host retained at its start and none that is not at its end, each with the group-by of the ledger as one of its pages read it |
| Reason.PassIsGroupBy | src/c2engine/services/reason/engine.py:114-193 | if every stored last sighting is some row's time, a pass leaves exactly the group-by, without leftovers |
| Reason.RunBacked | src/c2engine/services/reason/engine.py:158-193 | that condition holds after any run of appends, whole passes, and single pages and ends of passes with appends between them |
| Reason.IndexIsGroupBy | src/c2engine/services/reason/engine.py:114-193 | in any such run, passes broken off or interrupted by appends included, each pass without appends in it leaves the index equal to the direct group-by of the rows not older than 30 days |
| Reason.IndexFollowsPages | src/c2engine/services/reason/engine.py:114-193 | in any such run each pass, with whatever rows arriving between its pages, covers the hosts retained throughout in that way |
| Reason.PageReadsItsLedger | src/c2engine/services/reason/engine.py:114-193 | with appends between the pages of a pass, each entity is the group-by of the ledger as its own page read it, and stays so to the end of the pass |
| Feed.ParametersMean | src/c2engine/services/feed/server.py:56-67 | stages are clamped to 0, 1 and 2 and asked for by rank, limits to 1 and 10000; the default window is seven days |
| Feed.WindowMeans | src/c2engine/services/feed/server.py:25-76 | a window is so many seconds, minutes, hours or days, and the default one without a match |
| Feed.NewlineIsPassedOn | src/c2engine/services/feed/server.py:25-65 | a well-formed window with a newline behind it passes the check and is handed to the index as it is, not replaced by the default |
| Feed.SearchEntities | src/c2engine/services/feed/server.py:69-82 | the newest qualifying entities, newest first, up to the limit, or a failure for a window the index does not take |
| Feed.BuildFeed | src/c2engine/services/feed/server.py:52-121 | where the search answers, the entities are, in order, those with a host among the newest qualifying ones up to the limit, and the addresses are the hosts among them that parse as one; no qualifying host left out is newer than one listed, and within the limit none is left out |
| Feed.FeedFollowsEvidence | src/c2engine/services/feed/server.py:64-82 | after any run that ends with a completed pass, a host qualifies if and only if it has a retained row of at least the asked stage and a retained row in the window |
| Feed.ThirdPartiesMoveNothing | src/c2engine/services/reason/engine.py:154-157 | passes that differ only in VirusTotal verdicts, toolkits and intel matches list the same hosts |
| Cname.Resolver.ResolveCname | sensor/cowrie/src/cowrie/core/network.py:51-91 | ends on every zone; an address returned is the first one of the search in record order: on the way to it no address and no unvisited link is passed over, and every other name visited is exhausted; without one, each name visited on the way is exhausted |
| Cname.ExhaustedIsComplete | sensor/cowrie/src/cowrie/core/network.py:62-91 | a search that exhausted every visited name has missed nothing: some reachable name failed or none has an address |
| Cname.Resolve | sensor/cowrie/src/cowrie/core/network.py:105-107 | from a clean start the first address in record order is returned; without failures on the way one is found if and only if a reachable name has one |
| Cname.CommunicationAllowed | sensor/cowrie/src/cowrie/core/network.py:94-126 | a literal address is allowed if and only if it is not blocked; a name is allowed only if the first address it resolves to is not, and refused only if that is blocked or malformed, a lookup failed or there is none |
| ClientHello.ParseTlsClientHello | sensor/cowrie/src/cowrie/core/fingerprint.py:37-162 | on every byte string the cursor loops end and compute the recursive reading of the record |
| ClientHello.ExtensionsRead | sensor/cowrie/src/cowrie/core/fingerprint.py:109-149 | the extension loop over encoded extensions adds each of them in turn |
| ClientHello.AnyBodyGathers | sensor/cowrie/src/cowrie/core/fingerprint.py:119-147 | what an extension adds whatever its body holds: its type, that a server is named, and its first protocol name or its algorithms where its body states a list that lies within the data |
| ClientHello.AlpnReads | sensor/cowrie/src/cowrie/core/fingerprint.py:125-135 | of an encoded ALPN extension exactly the first name is read |
| ClientHello.AsciiMeans | sensor/cowrie/src/cowrie/core/fingerprint.py:133-135 | ASCII bytes are read character by character |
| ClientHello.AsciiSum | sensor/cowrie/src/cowrie/core/fingerprint.py:133-135 | text is read from left to right |
| ClientHello.ListReads | sensor/cowrie/src/cowrie/core/fingerprint.py:85-89 | an encoded list of 16-bit values is read back whole and in order |
| ClientHello.RoundTrip | sensor/cowrie/src/cowrie/core/fingerprint.py:37-162 | parsing the encoding of any well-formed ClientHello with an extensions block gives exactly its version, ciphers, extension types, server name flag, first ALPN name and signature algorithms |
| ClientHello.FieldsMean | sensor/cowrie/src/cowrie/core/fingerprint.py:97-162 | what is reported: extension types in order by their numbers, a server name if and only if there is that extension, the algorithms of the last list of them, and the first name of the last ALPN list, spelled out character by character where it is ASCII |
| ClientHello.CutReads | sensor/cowrie/src/cowrie/core/fingerprint.py:97-149 | a message cut off behind some whole extensions, or anywhere within the next one, is reported with these alone |
| ClientHello.ShortIsRefused | sensor/cowrie/src/cowrie/core/fingerprint.py:37-100 | a message cut off anywhere before its extensions is refused |
| ClientHello.ListsMean | sensor/cowrie/src/cowrie/core/fingerprint.py:85-146 | lists of any length are read in steps of two bytes; beyond the data ciphers fail, and algorithms end |
| TtyLog.LogFile.TtylogOpen | sensor/cowrie/src/cowrie/core/ttylog.py:21-30 | appends the opening record, or nothing when the stamp cannot be packed |
| TtyLog.LogFile.TtylogClose | sensor/cowrie/src/cowrie/core/ttylog.py:51-60 | appends the closing record, or nothing when the stamp cannot be packed |
| TtyLog.LogFile.TtylogWrite | sensor/cowrie/src/cowrie/core/ttylog.py:33-48 | appends the packed header and the data, or nothing when the header cannot be packed |
| TtyLog.LogFile.ReadInput | sensor/cowrie/src/cowrie/core/ttylog.py:63-93 | the loop hashes the data of every record but output ones, up to the first header cut short, or raises at a length below -1 |
| TtyLog.HeaderRoundTrip | sensor/cowrie/src/cowrie/core/ttylog.py:18-18 | unpacking a packed 24-byte little-endian header gives the same six numbers |
| TtyLog.HeaderBytes | sensor/cowrie/src/cowrie/core/ttylog.py:18-18 | every 24 bytes are the packing of the header they unpack to |
| TtyLog.HeaderLayout | sensor/cowrie/src/cowrie/core/ttylog.py:18-18 | the six numbers stand four bytes apart, the least significant byte first |
| TtyLog.RecordLayout | sensor/cowrie/src/cowrie/core/ttylog.py:15-60 | opening, writing and closing records begin with 1, 3 and 2, followed by length, direction and stamp, and the data |
| TtyLog.StampFitsExactlyWhen | sensor/cowrie/src/cowrie/core/ttylog.py:46-47 | a time stamp can be packed if and only if it is later than a microsecond before the epoch and before the end of 32-bit time |
| TtyLog.StampIsMicroseconds | sensor/cowrie/src/cowrie/core/ttylog.py:46-46 | the two stored numbers are the stamp in whole microseconds |
| TtyLog.HashesWhatWasTyped | sensor/cowrie/src/cowrie/core/ttylog.py:21-93 | for any sequence of calls whose length is that of their data the reader hashes exactly the data of the non-output records, in order |
| TtyLog.RaisesExactlyWhen | sensor/cowrie/src/cowrie/core/ttylog.py:63-93 | reading a log raises if and only if a header that the reader meets has a length below -1 |
| TtyLog.TruncationCollectsPrefix | sensor/cowrie/src/cowrie/core/ttylog.py:63-93 | of any log cut off anywhere the reader collects a prefix of what it collects from the whole log, and raises only if it does there |
| TtyLog.TruncationHashesPrefix | sensor/cowrie/src/cowrie/core/ttylog.py:63-93 | a log that can be hashed can be hashed when cut off anywhere, and then hashes a prefix |
| TtyLog.OverstatedSizeSwallows | sensor/cowrie/src/cowrie/core/ttylog.py:63-93 | any record that overstates its length takes the following bytes, headers included, as its own data, and reading goes on behind them |
| TtyLog.OverstatedOutputHides | sensor/cowrie/src/cowrie/core/ttylog.py:63-93 | an output record that overstates its length by all that follows leaves nothing of it to be hashed |
| PoolService.Service.SetConfigs | sensor/cowrie/src/backend_pool/pool_service.py:208-216 | changes the three settings and nothing else |
| PoolService.Service.MarkTimedOut | sensor/cowrie/src/backend_pool/pool_service.py:255-277 | exactly the used guests freed too long ago become unavailable |
| PoolService.Service.CheckHealth | sensor/cowrie/src/backend_pool/pool_service.py:279-296 | exactly the usable guests without connectivity become unavailable |
| PoolService.Service.DestroyTimedOut | sensor/cowrie/src/backend_pool/pool_service.py:298-312 | the guests unavailable at the start become destroyed, one by one, where the backend succeeds |
| PoolService.Service.RemoveDestroyed | sensor/cowrie/src/backend_pool/pool_service.py:314-321 | the guests destroyed at the start leave the list |
| PoolService.Service.CreateGuests | sensor/cowrie/src/backend_pool/pool_service.py:344-378 | as many creations as are missing, failures skipped; addresses stay distinct and ids restart at 252 |
| PoolService.Service.MarkAvailable | sensor/cowrie/src/backend_pool/pool_service.py:323-342 | the guests created at the start become available where they accept connections |
| PoolService.Service.ProducerLoop | sensor/cowrie/src/backend_pool/pool_service.py:380-404 | one undisturbed turn: cull, check, sweep, create, mark, in this order, and no culling of a last guest |
| PoolService.Service.RequestVm | sensor/cowrie/src/backend_pool/pool_service.py:435-460 | grants the guest serving the client already, else an available one, else with sharing the least busy, and records the client |
| PoolService.Service.MinConnected | sensor/cowrie/src/backend_pool/pool_service.py:423-432 | the first busy guest with the fewest connections |
| PoolService.Service.FreeVm | sensor/cowrie/src/backend_pool/pool_service.py:462-471 | the first guest with the id loses a connection and becomes used, from any stage, when it was the last |
| PoolService.Service.ReuseVm | sensor/cowrie/src/backend_pool/pool_service.py:473-483 | the first guest with the id loses a connection and returns to its previous stage when it was the last |
| PoolRuns.RunsAreSound | sensor/cowrie/src/backend_pool/pool_service.py:255-404 | in every reachable state, whatever calls come between the producer's steps, no two listed guests share an address and the list is not longer than the largest `max_vm` configured so far |
| PoolRuns.RemovingIsSound | sensor/cowrie/src/backend_pool/pool_service.py:314-321 | after the removal step no destroyed guest is left, so that what is missing is counted against the whole list |
| PoolRuns.SetEachMeans | sensor/cowrie/src/backend_pool/pool_service.py:302-306 | a pass over listed guests changes exactly the stages of those the backend agreed to |
| PoolRuns.RemovalLeavesTheRest | sensor/cowrie/src/backend_pool/pool_service.py:314-321 | an undisturbed removal keeps exactly the guests that are not destroyed |
| PoolLoop.TurnIsLoop | sensor/cowrie/src/backend_pool/pool_service.py:255-404 | the small steps of the producer, undisturbed, lead to what its loop does |
| PoolLoop.RecordsAreKept | sensor/cowrie/src/backend_pool/pool_service.py:435-483 | in every run the connections, clients and release time of each listed guest are those of the grants and releases that reached it |
| PoolLoop.ChoiceMeans | sensor/cowrie/src/backend_pool/pool_service.py:407-446 | the guest granted is the first busy one serving the client, else the first available one, else with sharing the first with the fewest connections |
| PoolLoop.StagesMean | sensor/cowrie/src/backend_pool/pool_service.py:255-296 | what requests, releases, time-outs and connection checks do to the stage of each guest |
| PoolClients.GrantedExactlyWhen | sensor/cowrie/src/backend_pool/pool_service.py:407-453 | a request is granted if and only if a busy guest serves the client, a guest is available, or guests are shared and one is busy; a client served already gets a guest that serves it |
| PoolClients.NoTwoClients | sensor/cowrie/src/backend_pool/pool_service.py:435-460 | with sharing off at every request and no reuse, a guest only ever serves one client address |
| PoolExclusive.ExclusiveExactlyWhen | sensor/cowrie/src/backend_pool/pool_service.py:407-483 | over all runs of a kind guests always serve one client only if and only if the runs neither share guests nor hand them back for reuse; a reachable pool shows each exception |
| PoolClients.ReuseMixesClients | sensor/cowrie/src/backend_pool/pool_service.py:473-483 | handing back an available guest that a request took undoes the request except for the client on record, and the next new client gets the same guest |
| PoolClients.IdsClashExactlyWhen | sensor/cowrie/src/backend_pool/pool_service.py:374-378 | two listed guests share an id if and only if their places in the order of creation differ by a multiple of 252 |
| PoolClients.FreeFindsItsGuest | sensor/cowrie/src/backend_pool/pool_service.py:462-471 | in every run, freeing the id right after the request that returned it releases the very guest it granted if and only if no guest listed before it was created a multiple of 252 creations earlier |
| PoolClients.FreeLaterFinds | sensor/cowrie/src/backend_pool/pool_service.py:435-471 | after any further events freeing that id releases the granted guest, at its old address, if and only if it is still listed and no such guest is listed before it, and so whenever none was at the request; if it is gone, another is released if and only if one with the same id is listed |
| PoolClients.RunInherits | sensor/cowrie/src/backend_pool/pool_service.py:314-378 | as a run goes on no removed guest comes back, and each listed guest keeps its address and its place in the order of creation |
| PoolClients.FreeFindsEarly | sensor/cowrie/src/backend_pool/pool_service.py:374-378 | it always does while no more than 252 guests have been created |
| PoolIds.WrongGuestFreed | sensor/cowrie/src/backend_pool/pool_service.py:344-378 | a reachable pool of 253 guests in which freeing the id of the granted guest releases the first one instead |
| Discord.Output.Write | sensor/cowrie/src/cowrie/output/discord.py:77-82 | queues the event and sends at once if idle; does nothing after a stop |
| Discord.Output.ProcessQueue | sensor/cowrie/src/cowrie/output/discord.py:88-96 | moves the head of the queue in flight unless stopped or sending |
| Discord.Output.FireTimer | sensor/cowrie/src/cowrie/output/discord.py:88-99 | a pending call leaves the reactor and processes the queue |
| Discord.Output.AfterResult | sensor/cowrie/src/cowrie/output/discord.py:129-148 | 429 puts the entry back first, a server error within the retries puts it last with one more attempt, anything else drops it; the next processing is scheduled with the matching delay |
| Discord.Output.AfterError | sensor/cowrie/src/cowrie/output/discord.py:150-159 | a failed request is treated as a server error |
| Discord.Output.Stop | sensor/cowrie/src/cowrie/output/discord.py:71-74 | empties the queue and marks the plugin stopped and idle |
| Discord.RunsAreSound | sensor/cowrie/src/cowrie/output/discord.py:71-159 | in every run at most one request is in flight, a non-empty idle queue has a pending timer, queued, in-flight and finished events are the written ones as multisets until a stop, and no event gets more than `max_retries + 1` answers other than 429 |
| Discord.AnswerMoves | sensor/cowrie/src/cowrie/output/discord.py:129-159 | where an answered event goes: back to the front, to the end, or among the finished |
| Discord.AnswerDecides | sensor/cowrie/src/cowrie/output/discord.py:120-159 | in every reachable state 429 puts the event back first for the time the answer says or else the retry delay, a server error or none puts it last while it has had fewer such answers than retries, and anything else finishes it |
| Discord.RequestsCounted | sensor/cowrie/src/cowrie/output/discord.py:88-159 | in every run each request sent was answered or is in flight |
| Discord.FinishInOrder | sensor/cowrie/src/cowrie/output/discord.py:129-159 | while every answer is final or 429, events finish in the order in which they were written |
| Discord.NothingAfterStop | sensor/cowrie/src/cowrie/output/discord.py:71-96 | once stopped, no request is ever sent again |
| Discord.StopMeans | sensor/cowrie/src/cowrie/output/discord.py:71-74 | a stop empties the queue and leaves what is in flight and pending |
| AbuseIpdb.LogBook.TolerantObserver | sensor/cowrie/src/cowrie/output/abuseipdb.py:141-168 | the entry and the report after a sighting |
| AbuseIpdb.LogBook.CleanExpiredTimestamps | sensor/cowrie/src/cowrie/output/abuseipdb.py:210-220 | the expired sightings at the front of one entry are dropped |
| AbuseIpdb.LogBook.CleanupAndDumpState | sensor/cowrie/src/cowrie/output/abuseipdb.py:256-278 | entries that may be reported again or are left empty are dropped, the others lose their expired sightings |
| AbuseIpdb.LogBook.ReportIpMultiple | sensor/cowrie/src/cowrie/output/abuseipdb.py:347-351 | the report names the first and last sighting, and the entry is marked reported at the last |
| AbuseIpdb.SeenMeans | sensor/cowrie/src/cowrie/output/abuseipdb.py:149-153 | a sighting fills the deque if and only if the last `tolerance` sightings since its creation lie in the window; otherwise the deque holds what remains of them |
| AbuseIpdb.ReportsExactlyWhen | sensor/cowrie/src/cowrie/output/abuseipdb.py:141-168 | in any run with a clock that never goes back a sighting is reported if and only if the last `tolerance` sightings since the entry was created lie in the window; the report spans exactly those |
| AbuseIpdb.ReportsAreJustified | sensor/cowrie/src/cowrie/output/abuseipdb.py:141-168 | whatever the clean-ups did, an address is only reported after being seen often enough in the window |
| AbuseIpdb.ReportsFarApart | sensor/cowrie/src/cowrie/output/abuseipdb.py:235-278 | two reports of one address are more than `rereport_after` apart, across any clean-ups |
| AbuseIpdb.CountsAgainExactlyWhen | sensor/cowrie/src/cowrie/output/abuseipdb.py:141-168 | a reported address is counted again exactly from the first sighting after the pause on |
| AbuseIpdb.CleanupMeans | sensor/cowrie/src/cowrie/output/abuseipdb.py:210-278 | a clean-up keeps a reported address during its pause, and another if and only if it was seen twice, the second time within the pause, and last within the window; of that it keeps the sightings in the window |
| AbuseIpdb.CleanupForgetsSingles | sensor/cowrie/src/cowrie/output/abuseipdb.py:253-276 | for every tolerance a clean-up drops an address seen once however recently: as many sightings in one moment are reported, but not when a clean-up runs after the first of them |
| Forward.ParseFrame | src/c2engine/services/ingest/forward.py:63-101 | the records and the option of any decoded message, or a failure where unpacking or decompressing fails |
| Forward.NormalizeCleans | src/c2engine/services/ingest/forward.py:43-60 | after normalising, no byte string is left as a key or value at any depth and no key occurs twice |
| Forward.NormalizeKeepsClean | src/c2engine/services/ingest/forward.py:43-60 | a document without byte strings is forwarded verbatim, so normalising twice changes nothing more |
| Forward.NormalizeMeans | src/c2engine/services/ingest/forward.py:43-60 | bytes and the data of extensions become their text, lists are normalised item by item and maps value by value, the last of equal keys deciding |
| Forward.PackableExactlyWhen | src/c2engine/services/ingest/forward.py:104-107 | a value can be packed into a reply if and only if every text in it at any depth, keys included, is free of surrogate escapes |
| Forward.ShortFrames | src/c2engine/services/ingest/forward.py:63-101 | frames without an option, and what is no frame |
| Forward.ForwardArrives | src/c2engine/services/ingest/forward.py:75-81 | a Forward frame delivers all its records, in order, and its option |
| Forward.PackedArrives | src/c2engine/services/ingest/forward.py:82-94 | a PackedForward frame of the same records delivers the same list, as bytes or as text, compressed or not |
| Forward.MessagesArrive | src/c2engine/services/ingest/forward.py:95-99 | single Message frames of the same records deliver the same list |
| Ingest.StripBytes | src/c2engine/services/ingest/server.py:18-27 | the record with the contents taken out of its files, or a failure |
| Ingest.StripFailsExactlyWhen | src/c2engine/services/ingest/server.py:22-26 | stripping fails if and only if `hp_data.files` is true and cannot be iterated |
| Ingest.StrippedMeans | src/c2engine/services/ingest/server.py:18-27 | no file keeps its contents, and everything else is kept |
| Ingest.SerializableExactlyWhen | src/c2engine/elastic/client.py:65-67 | a document can be serialised if and only if nothing in it at any depth is bytes, an extension or a time stamp object, and every key is text |
| Ingest.DatableExactlyWhen | src/c2engine/elastic/client.py:40-53 | a document is dated by its end time, else its time stamp, else `ts`, and has no daily index if and only if that is a number outside the years 1 to 9999 |
| Ingest.TagMeans | src/c2engine/elastic/client.py:213-225 | a document carries the tag of its frame, if that has one, and is otherwise unchanged |
| Ingest.DocsInOrder | src/c2engine/services/ingest/server.py:48-62 | the session document comes first and then the ledger rows in order |
| Ingest.PlanInOrder | src/c2engine/services/ingest/forward.py:146-147 | the records of a frame are written one after the other, up to one that fails |
| Ingest.EsWriter.WriteObservations | src/c2engine/elastic/client.py:221-225 | rows are written one by one with the tag, up to the first that raises |
| Ingest.HandleRecord | src/c2engine/services/ingest/server.py:30-62 | other tags are ignored; the session document is written before its rows; a failed enrichment falls back to the stripped record; storage failures reach the caller |
| Ingest.Dispatch | src/c2engine/services/ingest/forward.py:104-153 | a ping is answered; otherwise the acknowledgement is sent only after every record was handled; a failure, a reply that cannot be packed included, closes the connection |
| Ingest.PingMeans | src/c2engine/services/ingest/forward.py:104-137 | a ping is answered with its tag and time, which may be missing, and closes the connection if one of them cannot be packed |
| IngestRuns.AckedIsStored | src/c2engine/services/ingest/forward.py:146-153 | in every run of interleaved connections, write failures and repeats, an acknowledged frame has the session document and all ledger rows of each enrichable record stored |
| IngestRuns.StoredIsDerived | src/c2engine/services/ingest/server.py:48-62 | everything stored comes from an enrichable record of a received frame |
| IngestRuns.RetryOnlyDuplicates | src/c2engine/services/ingest/forward.py:146-153 | sending an acknowledged frame again only adds further copies of what is stored |
| IngestRuns.AloneIsDispatch | src/c2engine/services/ingest/forward.py:113-153 | a connection left alone stores and acknowledges what `Dispatch` does |
| IngestRuns.HandledExactlyWhen | src/c2engine/services/ingest/forward.py:134-153 | a store that answers each document always the same way lets a message be handled if and only if it parses, every record leaves documents that can all be written and are accepted, and the reply can be packed; with the store up, if and only if it parses, no record is poison and the reply can be packed |
| IngestRuns.UnpackableChunkIsRefused | src/c2engine/services/ingest/forward.py:146-153 | a frame whose chunk cannot be packed is never acknowledged, and stores all its documents again at every retry in which its records are handled |
| IngestRuns.ChunkPackableExactlyWhen | src/c2engine/services/ingest/forward.py:31-36 | a chunk that arrives as text can be packed into the acknowledgement if and only if its bytes are UTF-8 |
| IngestRuns.UnpackableChunkExample | src/c2engine/services/ingest/forward.py:151-152 | the frame without records whose chunk is the single byte 255 is refused for ever |
| IngestRuns.PoisonIsRefused | src/c2engine/services/ingest/forward.py:134-153 | a frame with a poison record, one that leaves no documents or one that cannot be written, is never acknowledged, whatever the store does |
| IngestRuns.PoisonExactlyWhen | src/c2engine/services/ingest/server.py:18-62 | a record that cannot be enriched is poison if and only if its files are true and cannot be iterated or what is left without their contents cannot be dated or serialised |
| IngestRuns.BadFilesArePoison | src/c2engine/services/ingest/server.py:18-46 | a record that cannot be enriched is poison if its files are true and cannot be iterated |
| IngestRuns.TimeStampIsPoison | src/c2engine/elastic/client.py:65-67 | it is poison if a field other than `hp_data` holds a value at any depth that cannot be serialised, which after normalising is a msgpack time stamp |
| IngestRuns.FarTimeIsPoison | src/c2engine/elastic/client.py:40-53 | it is poison if its end time is a number outside the years 1 to 9999, which names no daily index |
| IngestRuns.PoisonExamples | src/c2engine/elastic/client.py:40-67 | a record of each kind, one with an end time in milliseconds among them |
| Tail.Scan | sensor/cowrie/src/cowrie/core/utils.py:53-65 | the backward scan stops with more than `n` newlines or with the whole file, although the last block is counted too high |
| Tail.SuffixHasLastLines | sensor/cowrie/src/cowrie/core/utils.py:66-70 | a suffix with more than `n` newlines, wherever it starts, ends in the same last `n` lines as the file |
| Tail.Tail | sensor/cowrie/src/cowrie/core/utils.py:53-68 | the last `n` lines of the file for every positive `n`; for 0 only if the file is empty; none for negative `n` |
| Shell.ExpandedText | src/c2engine/analyze/shell.py:60-81 | the text joins the lines of every command in order, each unwrapped to depth 4 |
| Shell.Expand | src/c2engine/analyze/shell.py:66-80 | the level-by-level loop emits the lines of one command |
| Shell.LinesAreTextsByDistance | src/c2engine/analyze/shell.py:66-80 | for any unwrapping, cyclic ones included, the lines are the command and each text at distance 1 to the depth, each once and in order of distance |
| Shell.FreshKeepsOrder | src/c2engine/analyze/shell.py:66-80 | texts at one distance come in the order in which the search meets them first |
| Shell.PayloadsInOrder | src/c2engine/analyze/shell.py:72-79 | the payloads of the texts of one level are taken text after text |
| Shell.CommandsInOrder | src/c2engine/analyze/shell.py:66-70 | the commands are expanded one after the other, each to depth 4 |
| Shell.JoinedMeans | src/c2engine/analyze/shell.py:81-81 | the lines are joined by single line feeds, with none at the end |

## Left out

- TFTP: packets that arrive after the port was closed, cancelling with Ctrl-C, and the emulated `tftp` command.
- Rate limiter: `reset`; which of several equally old keys is evicted is left open, and every choice is covered.
- Elasticsearch: HTTP, retries, refresh delays, bulk answers of 200 that report failed items, approximate cardinalities and caps on terms; an index is a map with exact search, paging and delete-by-query, each of which may fail as a whole.
- Reason.ReasonJob.RunOnce: a pass during which rows never stop arriving ahead of its cursor is left out; every row has a time, and the country, network and `latest` fields of an entity are not modelled.
- Within a reason pass what VirusTotal says is a function of the host and its files, and what intel says one of the query; the resolver and the matcher that compute them are modelled in their own modules. Turning VirusTotal's answer into a count, a rounded ratio and families is left out.
- Intel.MatchIsScanExactlyWhen: lists are sets, the URL parser is a parameter whose host does not depend on letter case, URLs the parser rejects and IPv6 indicators are not modelled; downloading and parsing the CSV and JSON dumps is left out.
- Feed: HTTP, rendering, and non-ASCII digits in the window parameter; which windows the index takes is a parameter.
- Cname: names from records are compared by their exact text; how the resolver library compares names that differ in letter case is not modelled.
- ClientHello: the JA4 string built from the parsed fields.
- TtyLog: stamps are real numbers, so floating-point rounding of the microseconds is not modelled; SHA-256 itself is left out.
- PoolService.Service: guests are values in a list, told apart by their address, which is proved unique; update through aliases, the domain, snapshot and name fields, stopping and restarting the pool, and libvirt are not modelled; a request is atomic.
- Discord: building and clipping the embed, and the text of the request.
- AbuseIpdb: sleep mode after a long Retry-After, the observer for a tolerance below two, loading and dumping the state file, and the HTTP request.
- Ingest.HandleRecord: extraction and enrichment are a function of the record that may fail; geo look-ups and the name of the daily index are left out, except for the times from which no name can be made; so is the recursion limit of the interpreter on deeply nested records.
- IngestRuns.AckedIsStored: sending a packed reply never fails; a reply that is lost on the way is a frame received again. Replies nested so deeply that only packing them fails are left out with the other recursion limits.
- Shell: the regular expressions and base64 decoding of one unwrapping step.
- The sensor's SSH and Telnet layers, its emulated shell commands, the NAT reference counts of the VM pool and the output plugins other than Discord and AbuseIPDB are not part of this model.
- The engine's extraction of downloads and URLs, geo enrichment, network blocks, dashboards, command line and configuration are not part of this model.
