# Kasra: rules, engine, limiter, tunnel, audit chain

A Dafny 4.11 model of the stateful parts of Kasra, with proofs about every run, every
interleaving or every input. `dafny verify dfyconfig.toml` checks all of it.

| file | subject |
|---|---|
| `Common.dfy`, `Text.dfy`, `Wire.dfy` | lists, Python string operations, line reading with a length limit |
| `RateLimiter.dfy` | the sliding-window limiter against the full, never pruned history |
| `Relay.dfy` | the two forwarders of a tunnel and their teardown, as a step relation with fairness |
| `Connect.dfy` | the CONNECT front end (section 9.3.6 of RFC 9110, section 3.2.3 of RFC 9112) and its join with the relay |
| `AuditChain.dfy`, `SealRuns.dfy` | verifying and tampering; logging and sealing as interleaved steps of sessions, and the log rows the chain accounts for |
| `Patterns.dfy`, `Dictionaries.dfy` | dictionary expansion of rule patterns, versioned dictionaries |
| `Rewriting.dfy`, `Migration.dfy` | the migration script: group extraction, word check, rewriting, running it again |
| `Behaviour.dfy`, `BehaviourRuns.dfy` | daily counters, the anomaly score over exact rationals, and sessions that update one row at the same time |
| `Upsert.dfy`, `RuleTables.dfy`, `RuleExport.dfy` | bundle import through a non-flushing session, export, round trip |
| `RuleEngine.dfy`, `RuleStore.dfy` | engine reload, live updates, agreement of tables and engine over runs |
| `CustomRules.dfy` | custom rules: do the live pattern and the stored patterns mean the same, and which operations keep it so |
| `ProxyText.dfy`, `BatchScan.dfy` | text extraction of the HTTP proxy, grouping of batch findings |

Objects that the program updates in place are classes here (`RateLimiter`, `StreamReader`,
`StreamWriter`, `ConnectProxy`, `AuditStore`, `Dictionary`, `BehaviourStore`, `Session`, `Engine`,
`RulesService`). Their methods are proved equal to functions on values, and the theorems are about
those functions.

## Where a promise does not hold

The code is modelled as it is. Where it does not keep a promise, the exact condition is proved, and a
lemma gives an input at which it fails.

- A connection is not always answered: a line longer than the reader's limit raises past the handler
  (`Connect.AbortedIff`; input: `Connect.UnansweredExample`).
- A refused request is told `rpm` requests remain; the count is exact only for admitted ones or a limit of
  zero (`RateLimiting.RemainingIsExactIff`; `RateLimiting.RefusedRemainingExample`).
- The docstring of `verify_chain` promises a recomputed hash; only the links are compared, so other
  columns, and the last hash, can be changed unnoticed (`AuditChain.OnlyLinksAreChecked`,
  `AuditChain.OverwriteNoticedIff`; `AuditChain.ForgedBlocksExample`). For a broken chain the id of the
  broken block is reported as the number of blocks checked, which it is only without gaps before it
  (`AuditChain.ReportedIdIsCountIff`; `AuditChain.ReportedIdExample`). The genesis hash is 64 zeros, where
  `docs/05-database-test.md` says "0".
- Overlapping seals break the chain (`SealRuns.RaceBreaksChainIff`; `SealRuns.OverlapExample`). Even when
  seals do not overlap, scans do: the covered log position can go back
  (`SealRuns.PositionNeverDecreasesIff`; `SealRuns.LateSealExample`), and a block can cover rows of other
  sessions and two blocks a common row (`SealRuns.CoverOwnRowsIff`; `SealRuns.LateQuestionExample`). One scan
  after the other does neither (`SealRuns.SerialScansAreInOrder`).
- `docs/05-database-test.md` expects the chain to cover the newest log row; code reviews and failed or late
  seals leave it uncovered (`SealRuns.CoveredIff`; `SealRuns.UncoveredExample`).
- Requests of one user that overlap lose counts, and more requests can be counted blocked than there are
  (`BehaviourRuns.TotalCountsAllIff`; `BehaviourRuns.LostUpdateExample`,
  `BehaviourRuns.MoreBlockedThanTotalExample`).
- With no active dictionary, references reach the engine unexpanded (`Patterns.FaithfulIff`,
  `RuleEngine.LiveRuleMatchesAsStoredIff`; `Patterns.UnexpandedReferenceExample`). So deactivating the last
  active dictionary can add matches (`Dictionaries.SwitchingIsMonotoneIff`;
  `Dictionaries.DeactivationAddsMatchExample`).
- The migration script calls itself idempotent; it is exactly when nothing is migrated partially
  (`Migration.ScriptTwice`; `Migration.PartialTwiceExample`). A regex replaced as a whole loses the words
  that the matched dictionary lacks, and in general what it matched (`Migration.WholeReplacementKeepsWordsIff`,
  `Rewriting.MigrationKeepsMatchesIff`; `Migration.LostWordExample`).
- An import fails as a whole when the bundle names a new id twice (`Upsert.ImportFailsIff`;
  `RuleTables.RepeatedIdExample`).
- A reload can be cut short by a disabled custom rule without a pattern; a disabled code-review rule behind
  it stays live (`RuleEngine.ReloadBringsCustomIntoAgreementIff`; `RuleEngine.CutShortExample`).
- Deleting an enabled built-in rule leaves it live (`RuleStore.StepKeepsRulesAgreeingIff`;
  `RuleStore.DeletedRuleStaysLiveExample`), and a custom import that disables a live rule leaves it live until
  the next reload (`RuleStore.CustomImportAgreesIff`; `RuleStore.DisabledByImportExample`).
  `docs/05-database-test.md` expects the deletion of a built-in rule to re-enable it; the code disables it.
- A custom rule has its pattern twice: bundles carry the detection object, the engine works with the simple
  pattern fields. The two need not mean the same (`CustomRules.MeansWhatItStoresIff`): only the first of
  several imported patterns goes live (`CustomRules.TwoPatternsExample`), patterns imported over an existing
  rule never do (`CustomRules.ImportBreaksMeaningIff`; `CustomRules.ReplacedPatternExample`), and a pattern
  edited by an update is live but not exported, so the round trip undoes the edit
  (`CustomRules.EditBreaksMeaningIff`, `CustomRules.LiveSurvivesRoundTripIff`, `RuleExport.CustomComesBack`;
  `CustomRules.EditedRowExample`).
- The series of a built-in rule does not always survive export and import, so a later export of its series
  can miss it (`RuleExport.SeriesSurvivesIff`, `RuleExport.SeriesFiltersFindIff`; `RuleExport.LostSeriesExample`).
- Target files, and a category without a name, do not always survive export and import
  (`RuleExport.RuleReexportsIff`, `RuleExport.CustomReexportsIff`; `RuleExport.RuleReexportExample`,
  `RuleExport.CustomReexportExample`).

## Assumed of the parts that are not in the repository

The engine contracts are those of the class `RuleEngine.Engine`: loading replaces all rules and forgets
earlier switches; a switch belongs to the entry and goes with it when the entry is removed or replaced;
switching an unknown id is reported and changes nothing; removing an unknown id does nothing. The
not-found error of the engine is neither a `KeyError` nor a `ValueError` (rules_service.py handles it
separately, behind those two), so a reload does not catch it. Whether a pattern matches a text is any
function, and so are byte decoding, `int()`, the dial, the digest, and the order in which queries return
rows. Hashes are assumed collision-free only where `Collisionless` is required.

## Model

| member | source | states |
|---|---|---|
| RateLimiting.RateLimiter.Check | app/main.py:231-239 | one check prunes, refuses or admits as in the source; new lists and answer are fixed |
| RateLimiting.PruningIsInvisible | app/main.py:231-239 | for a clock that never runs back, admission and remaining count follow from ALL admissions of the key in the last 60 s |
| RateLimiting.WindowBound | app/main.py:221-239 | in every run every window (s, s+60] holds at most rpm admissions of a key |
| RateLimiting.IntervalBound | app/main.py:221-239 | any interval of at most k minutes holds at most k*rpm admissions |
| RateLimiting.KeysAreIndependent | app/main.py:229-239 | lists and admissions of a key are unchanged when all other keys' requests are removed from the run |
| RateLimiting.VerdictDependsOnOwnKey | app/main.py:231-239 | so the answer depends on the own key's past only |
| RateLimiting.RefusalsUseNoQuota | app/main.py:236-237 | taking every refused request out of the past changes no later answer |
| RateLimiting.OneMinute | app/main.py:231-239 | with limit 1 a second request is admitted iff 60 seconds have passed since the first |
| RateLimiting.BurstAdmitsHeadroom | app/main.py:231-239 | of n simultaneous requests exactly min(n, headroom) are admitted |
| RateLimiting.RemainingIsExactIff | app/main.py:236-239 | the returned count is the headroom left iff the request was admitted or the limit is 0 |
| RateLimiting.RefusedRemainingExample | app/main.py:236-237 | limit 1, second request at the same time: told 1 remains, room for none |
| Relay.RelayedIsPrefix | app/proxy/tcp_proxy.py:181-215 | every interleaving: each side has been sent an in-order prefix of the other side's bytes, every consumed byte was written, and the client's stream starts with the 200 line |
| Relay.EarlyBytesFirst | app/proxy/tcp_proxy.py:185-187 | bytes buffered behind the request header come first in the client's stream |
| Relay.StepKeepsOk | app/proxy/tcp_proxy.py:204-247 | the relay invariant is kept by every step of forwarders, waiter and network |
| Relay.ClosedIsFinal | app/proxy/tcp_proxy.py:210-221 | once a writer is closed nothing is ever written to it again |
| Relay.CleanEndIsComplete | app/proxy/tcp_proxy.py:209-214 | a direction that ended at end of stream has written everything that arrived |
| Relay.BytesCanBeForwarded | app/proxy/tcp_proxy.py:208-213 | a reading forwarder can write any number of waiting bytes up to 65536, in order |
| Relay.ForwardersReadOn | app/proxy/tcp_proxy.py:204-213 | a forwarder begins by reading, and reads on after a write |
| Relay.CancelledForwarderCloses | app/proxy/tcp_proxy.py:215-221 | a cancelled forwarder writes nothing more and closes its writer, unless it had never started |
| Relay.ForwardersCanEnd | app/proxy/tcp_proxy.py:210-221 | a reading forwarder can end at end of stream and can fail, and closes its writer then |
| Relay.PeersCanSend | app/proxy/tcp_proxy.py:209 | either peer can send any bytes until it closes |
| Relay.EveryByteIsForwarded | app/proxy/tcp_proxy.py:204-213 | while a forwarder runs on, in either direction, every byte that has arrived is written in the end, in order |
| Relay.OwedIsGiven | app/proxy/tcp_proxy.py:228-232 | in a fair run an owed turn is given, with the waiter's stage unchanged until then |
| Relay.TeardownIsInevitable | app/proxy/tcp_proxy.py:223-247 | once one forwarder is done, every fair run reaches for good the state with both done and both writers closed |
| Wire.ReadLineIsFirst | app/proxy/tcp_proxy.py:70-75 | a read takes the first newline-terminated line of the stream and fails iff that line exceeds the limit |
| Wire.ReadLineLimit | app/proxy/tcp_proxy.py:70-75 | a line is read iff it has at most 65536 bytes before its newline |
| Wire.LinesMeans | app/proxy/tcp_proxy.py:124-152 | lines end with their only newline, except perhaps the last |
| Connect.SkipHeadersMeaning | app/proxy/tcp_proxy.py:150-154 | the header loop fails iff an overlong line precedes any blank one, else it consumes exactly a header block |
| Connect.BlockIsSkipped | app/proxy/tcp_proxy.py:150-154 | any header block is consumed, and nothing behind it |
| Connect.HostPortSplits | app/proxy/tcp_proxy.py:138-139 | host and port text are the cut at the first colon, and that cut is unique |
| Connect.FieldsOf | app/proxy/tcp_proxy.py:129-132 | the first two pieces of a line are its first two words, whatever white space stands around them |
| Connect.AddressesIff | app/proxy/tcp_proxy.py:129-137 | a line has the method CONNECT and a target as its pieces iff it reads as white space, the word in any mix of cases, white space and that target |
| Connect.ParseRequestMeans | app/proxy/tcp_proxy.py:129-148 | the line is accepted for host and port iff it asks for them: it reads as CONNECT and a target, with port text absent (443) or a number in 1..65535 |
| Connect.BadRequestSays | app/proxy/tcp_proxy.py:138-148 | which bad port gets which words |
| Connect.NotConnectSays | app/proxy/tcp_proxy.py:132-135 | any other line is told that CONNECT is expected |
| Connect.TunnelIff | app/proxy/tcp_proxy.py:117-186 | a tunnel opens iff the stream is a readable CONNECT request for a permitted, reachable host, and the relay gets the bytes behind the header block |
| Connect.TunnelSplitsInput | app/proxy/tcp_proxy.py:150-186 | header lines and relayed bytes together are the stream |
| Connect.RefusalMeans | app/proxy/tcp_proxy.py:133-179 | which stream gets 400, 403, 504 and 502 |
| Connect.RefusalSays | app/proxy/tcp_proxy.py:156-179 | the words of 403, 504 and 502 |
| Connect.AbortedIff | app/proxy/tcp_proxy.py:100-186 | the client stays unanswered iff an overlong line is met first or the dial raises something unexpected |
| Connect.TunnelExample | app/proxy/tcp_proxy.py:117-186 | a concrete CONNECT request that opens its tunnel, with the bytes behind its header |
| Connect.UnansweredExample | app/proxy/tcp_proxy.py:119-127 | 70000 characters without a line end get no answer |
| Connect.SilentIff | app/proxy/tcp_proxy.py:124-127 | only the empty stream is closed in silence |
| Connect.RefusalsAreWellFramed | app/proxy/tcp_proxy.py:251-278 | a client reading any refusal finds a Content-Length equal to the number of bytes behind the header, which are the body |
| Connect.ResponseText | app/proxy/tcp_proxy.py:265-269 | the bytes of a response |
| Connect.DigitsMean | app/proxy/tcp_proxy.py:266-267 | numbers in it are decimal without leading zeros |
| Connect.EstablishedReads | app/proxy/tcp_proxy.py:182 | the established line is that status line and an empty header |
| Connect.Respond | app/proxy/tcp_proxy.py:251-278 | writes exactly one response and closes |
| Connect.ConnectProxy.HandleConnect | app/proxy/tcp_proxy.py:117-186 | outcome, bytes written, closedness and remaining input for every stream |
| Connect.ConnectProxy.OnConnect | app/proxy/tcp_proxy.py:100-115 | the task is gone from the set whatever the outcome |
| Connect.TunnelIsTransparent | app/proxy/tcp_proxy.py:117-247 | handler and any relay run together: the client is sent the 200 line and a prefix of the remote's bytes; header block plus what the remote is sent is a prefix of the client stream, or the whole of it continued by later arrivals in order |
| AuditChain.VerifyChain | app/services/audit_chain.py:143-195 | valid iff every link holds; otherwise the id and log position of the first broken block |
| AuditChain.ReportedIdIsCountIff | app/services/audit_chain.py:156-182 | the number reported for a broken chain is the number of blocks checked iff no id is missing up to the broken one |
| AuditChain.ReportedIdExample | app/services/audit_chain.py:178-182 | without its second block a chain is reported broken with 3 where 2 were checked |
| AuditChain.RearrangementNoticedIff | app/services/audit_chain.py:102-125 | rows picked from an intact chain in any order verify iff they are a prefix of it |
| AuditChain.OverwriteNoticedIff | app/services/audit_chain.py:169-195 | an overwritten block goes unnoticed iff its prev_hash and, unless last, its batch_hash are kept |
| AuditChain.OverwriteNoticedAt | app/services/audit_chain.py:169-189 | the first broken block is the overwritten one or its successor, by which hash was changed |
| AuditChain.ForgedBlocksExample | app/services/audit_chain.py:146-189 | a forged last hash, and forged positions and counts, pass |
| AuditChain.OnlyLinksAreChecked | app/services/audit_chain.py:146-148 | other columns never influence the verdict |
| SealRuns.RaceBreaksChainIff | app/services/audit_chain.py:102-125 | an interleaving leaves an intact chain iff every insert read the block right before it |
| SealRuns.OverlapExample | app/services/audit_chain.py:102-125 | two sessions that read before either inserts leave a broken chain |
| SealRuns.OneAtATimeIsIntact | app/services/audit_chain.py:99-125 | seals that do not overlap always leave an intact chain |
| AuditChain.AuditStore.SealChainBatch | app/services/audit_chain.py:81-140 | appends one block with the newest hash as previous hash and the digest of that, its position, count and time; nothing for an empty batch or a failing database |
| AuditChain.AuditStore.LogToDb | app/services/scan_service.py:61-116 | adds one row per rule and seals them with the newest row id |
| AuditChain.AuditStore.LogCodeReviewFindings | app/services/scan_service.py:250-277 | adds rows without sealing |
| AuditChain.AddRowsMeans | app/services/scan_service.py:61-94 | rows are appended one per rule, in order, numbered on, with their direction |
| AuditChain.GenesisIsZeros | app/services/audit_chain.py:104-106 | the genesis hash is 64 zeros |
| SealRuns.EveryRowIsAccountedFor | app/services/scan_service.py:104-116 | over every interleaving of commits, questions, reads, inserts, failures and code reviews: rows = sealed + code review + failed seals + committed and not sealed yet |
| SealRuns.EveryBlockIsHashed | app/services/audit_chain.py:102-123 | in every interleaving each block's hash is the digest of the previous hash it carries, its position and count, and the time of an insert |
| SealRuns.ReviewsAreMarked | app/services/scan_service.py:250-265 | exactly the rows of code reviews are marked as such |
| SealRuns.PositionNeverDecreasesIff | app/services/scan_service.py:105-113 | the covered log position never goes back iff no session inserts behind one that asked later, with rows committed in between |
| SealRuns.LateSealExample | app/services/scan_service.py:105-113 | seals one at a time, intact chain, and the position falls from 3 to 1 |
| SealRuns.CoverOwnRowsIff | app/services/scan_service.py:105-113 | the rows a block counts back from its position are its own session's iff nobody committed between that session's commit and its question |
| SealRuns.OwnRowsApart | app/services/scan_service.py:105-113 | in every interleaving the rows of different sessions, sealed or open, are disjoint |
| SealRuns.UndisturbedRangesAreDisjoint | app/services/scan_service.py:110-113 | without such commits no two blocks cover a common row |
| SealRuns.LateQuestionExample | app/services/scan_service.py:105-113 | two sessions that ask after both committed cover row 3 twice |
| SealRuns.CoveredIff | app/services/scan_service.py:104-116 | the newest row is covered iff a session that asked since the last commit of rows has inserted |
| SealRuns.UncoveredExample | app/services/scan_service.py:250-277 | rows of a code review are not covered |
| SealRuns.RangesAreInOrder | app/services/scan_service.py:105-113 | sessions that ask undisturbed and insert in turn leave disjoint ranges in increasing order |
| SealRuns.SerialIsBook | app/services/scan_service.py:61-116 | an uninterrupted scan takes exactly these steps: histories of the store are runs of them |
| SealRuns.SerialScansAreInOrder | app/services/scan_service.py:61-116 | one scan after the other: intact chain, disjoint increasing ranges, positions that never go back, rows = sealed + code review + failed |
| Patterns.ResolveDictRefs | app/services/engine_service.py:263-283 | the nested loops compute the expansion |
| Patterns.ExpandAppend | app/services/engine_service.py:273-283 | expansion distributes over concatenation |
| Patterns.ExpandInPlace | app/services/engine_service.py:273-283 | every pattern is replaced where it stands |
| Patterns.ExpandLength | app/services/engine_service.py:273-283 | the length is the sum of entry counts and other patterns |
| Patterns.ExpandOnceIsEnough | app/services/engine_service.py:269-283 | no reference is left and a further expansion changes nothing |
| Patterns.ReferenceSpelledOut | app/services/engine_service.py:273-283 | a dictionary reference becomes one keyword pattern per entry, in order, with its confidence or 0.8; an unknown one nothing |
| Patterns.HandedOverAs | app/services/engine_service.py:304-314 | kind, value and confidence a pattern is handed over with, to engine and scanner |
| Patterns.RuleModelPatterns | app/services/engine_service.py:298-314 | the loop computes the definition's patterns, unexpanded if no dictionary is active |
| Patterns.RuleMeansSpelledOut | app/services/engine_service.py:269-283 | with or without active dictionaries, a rule means what its patterns mean with the references spelled out |
| Patterns.ExpansionPreservesMeaning | app/services/engine_service.py:298-314 | with an active dictionary an any-mode definition matches a text iff the stored rule means it to |
| Patterns.FaithfulIff | app/services/engine_service.py:300-302 | meaning is kept for every matcher iff some dictionary is active or every reference repeats an ordinary pattern |
| Patterns.UnexpandedReferenceExample | app/services/engine_service.py:300-302 | one reference, no active dictionary: live and stored meaning differ whatever kinds the engine knows |
| Patterns.EnlargingOnlyAddsMatches | app/services/engine_service.py:263-314 | larger dictionaries only make a rule match more |
| Patterns.MatchesNoMoreIff | app/services/engine_service.py:298-314 | a rule matches no more under one map than another, for every matcher, iff all it is handed over as under the first it is under the second |
| Dictionaries.Dictionary.AddEntries | app/services/dictionary_service.py:106-120 | entries and version after an addition |
| Dictionaries.Dictionary.RemoveEntries | app/services/dictionary_service.py:123-137 | entries and version after a removal |
| Dictionaries.Dictionary.UpdateDictionary | app/services/dictionary_service.py:69-92 | entries, version and activity after an update |
| Dictionaries.BumpIffChanged | app/services/dictionary_service.py:112-134 | add and remove bump the version, by one, iff the entries changed |
| Dictionaries.VersionDeterminesEntries | app/services/dictionary_service.py:69-137 | over any run versions never decrease and equal versions have equal entries |
| Dictionaries.AddMeans | app/services/dictionary_service.py:112-116 | old entries keep their place and exactly the requested ones join |
| Dictionaries.AddAppends | app/services/dictionary_service.py:112-116 | new entries are appended in their order, repetitions included |
| Dictionaries.RemoveMeans | app/services/dictionary_service.py:129-133 | exactly the unwanted entries go, order kept |
| Dictionaries.RemoveInPlace | app/services/dictionary_service.py:129-133 | each entry stays or goes where it stands |
| Dictionaries.UpdateMeans | app/services/dictionary_service.py:69-92 | an update replaces the entries and counts a version, or switches without one |
| Dictionaries.AddThenRemoveRestoresIff | app/services/dictionary_service.py:112-133 | adding and removing the same entries restores the exact list iff none was there before |
| Dictionaries.AdditionsOnlyAddMatches | app/services/dictionary_service.py:106-146 | through the active map, additions only enlarge what a rule matches |
| Dictionaries.RemovalsOnlyDropMatches | app/services/dictionary_service.py:123-146 | and removals only shrink it |
| Dictionaries.SwitchingIsMonotoneIff | app/services/dictionary_service.py:69-146 | deactivating only drops and activating only adds matches of a rule iff another dictionary is active or the rule's references stand for nothing new |
| Dictionaries.DeactivationAddsMatchExample | app/services/dictionary_service.py:69-146 | deactivating the only, empty dictionary makes a rule match |
| Dictionaries.LargerEntriesAddMatches | app/services/dictionary_service.py:69-92 | replacing the entries by more only adds matches |
| Migration.GroupsAreAllMatches | app/scripts/migrate_dictionaries.py:232-233 | the leftmost non-overlapping search finds every place where the group expression matches |
| Migration.GroupsAreDisjoint | app/scripts/migrate_dictionaries.py:232-233 | matches are ordered, disjoint spans |
| Migration.GroupEndMeans | app/scripts/migrate_dictionaries.py:233 | a match is `(?:`, one or more characters other than parentheses, and `)` |
| Migration.KeysMean | app/scripts/migrate_dictionaries.py:234-237 | the words of a group are its stripped alternatives of two or more characters that are not digits, dots and backslashes only |
| Migration.ExtractAlternationKeys | app/scripts/migrate_dictionaries.py:225-240 | the loop returns exactly the matches with two or more word-like alternatives, with text and bounds, as ordered disjoint spans |
| Migration.ExtractedGroupsAre | app/scripts/migrate_dictionaries.py:225-240 | extracted are exactly the matches with two or more word-like alternatives, with their text and without inner parentheses |
| Migration.ExtractedGroupsInOrder | app/scripts/migrate_dictionaries.py:233-240 | extracted groups are ordered and disjoint |
| Migration.CleanedIsOnePass | app/scripts/migrate_dictionaries.py:250-259 | three replacements and a metacharacter search accept exactly the words a one-pass grammar accepts |
| Migration.CanBeDictionaryIff | app/scripts/migrate_dictionaries.py:243-260 | an alternation qualifies iff all its words do |
| Migration.Decide | app/scripts/migrate_dictionaries.py:288-324 | the loops over groups and dictionaries, with their breaks, compute the plan of the pattern |
| Migration.MigrateRule | app/scripts/migrate_dictionaries.py:263-334 | the new pattern list, and that it is to be stored iff some pattern is migrated |
| Migration.PlanMeans | app/scripts/migrate_dictionaries.py:287-326 | a regex is left alone iff it has no group of plain words that a dictionary touches; else the first such group decides, and it is replaced iff that group is all of it |
| Migration.MatchedDictMeans | app/scripts/migrate_dictionaries.py:292-299 | the dictionary taken is the first with one of the first three words |
| Migration.WholeWithBoundaries | app/scripts/migrate_dictionaries.py:301-303 | word boundaries and white space around the group do not count |
| Rewriting.WrittenAs | app/scripts/migrate_dictionaries.py:303-323 | what is written for a pattern, with the default confidences 0.4 and 0.3 |
| Migration.ScriptTwice | app/scripts/migrate_dictionaries.py:1-9 | run twice on a rule the script adds one reference per partially migrated regex and changes nothing else; idempotent iff there is none |
| Migration.PartialTwiceExample | app/scripts/migrate_dictionaries.py:15-24 | with the script's own list, a regex that is longer by one reference at each run |
| Migration.WholeReplacementKeepsWordsIff | app/scripts/migrate_dictionaries.py:295-312 | the reference in place of a regex covers the words of its deciding group, for every matcher, in engine and scanner, iff all are dictionary entries |
| Migration.TwoWordPlan | app/scripts/migrate_dictionaries.py:277-326 | any regex starting with an alternative of two words, the first in the first dictionary, is replaced if that is all and joined otherwise |
| Migration.LostWordExample | app/scripts/migrate_dictionaries.py:15-24 | with the script's own list, an alternative of two words becomes a reference to a dictionary that has one of them |
| Rewriting.SecondRun | app/scripts/migrate_dictionaries.py:303-326 | a second run keeps the set of patterns and lengthens the list by the number of partial migrations |
| Rewriting.EveryRerunGrows | app/scripts/migrate_dictionaries.py:303-326 | and so does every further run |
| Rewriting.IdempotentIff | app/scripts/migrate_dictionaries.py:1-9 | the script is idempotent on a rule iff it migrates nothing of it partially |
| Rewriting.UnreplacedSurvive | app/scripts/migrate_dictionaries.py:275-326 | patterns not replaced as a whole survive, in order |
| Rewriting.MigratedMeans | app/scripts/migrate_dictionaries.py:275-326 | a migrated rule means what its remaining patterns and the joined references mean, and nothing else |
| Rewriting.MigrationKeepsMatchesIff | app/scripts/migrate_dictionaries.py:301-326 | it matches all it matched, for every matcher and dictionaries, iff every wholly replaced pattern is repeated by one that stays |
| Rewriting.CoversIff | app/services/engine_service.py:273-283 | a reference matches all that given words match as keywords iff all are entries |
| Behaviour.BehaviourStore.UpdateUserBehavior | app/services/scan_service.py:119-187 | users and behaviour tables after one event |
| Behaviour.RowIsFoldOfOwnEvents | app/services/scan_service.py:143-165 | a row exists iff its user had events that day and depends on those only |
| Behaviour.UsersAreUnique | app/services/scan_service.py:133-138 | at most one users row per user id, and one for everybody with a behaviour row |
| Behaviour.CountersCount | app/services/scan_service.py:167-178 | total, blocked and warned are the numbers of events; trigger counts are the multiset of rule ids seen |
| Behaviour.OrderDoesNotMatter | app/services/scan_service.py:167-187 | counters, triggers and score are the same for every permutation of a day's events |
| Behaviour.EventsInAnyOrder | app/services/scan_service.py:119-187 | any permutation of the events of all users and days leaves every row, and the names in the users table, the same |
| Behaviour.ScoreBounds | app/services/scan_service.py:180-187 | the score is in 0..100 before the cap, which never acts |
| Behaviour.ScoreReachesIff | app/services/scan_service.py:180-187 | in whole numbers: the score reaches n iff 50 points times the blocked share, 10 for each of at most 3 rules and 1 per hundred of at most 2000 requests do |
| Behaviour.ScoreIsMaximalIff | app/services/scan_service.py:180-187 | 100 iff everything blocked, three rules and 2000 requests |
| Behaviour.BlockNeverLowersScore | app/services/scan_service.py:167-187 | a blocked request never lowers the day's score |
| Behaviour.BlockedEventNeverLowersScore | app/services/scan_service.py:143-187 | in the table: a blocked event never lowers the score of its user and day, and touches no other row |
| BehaviourRuns.TotalCountsAllIff | app/services/scan_service.py:143-187 | of sessions that load and store one row the total counts every update iff none stores over another's, and then the row is what the events make of it one by one |
| BehaviourRuns.AbsorbedIsDay | app/services/scan_service.py:153-163 | from a new row that is the day's row |
| BehaviourRuns.LostUpdateExample | app/services/scan_service.py:167-171 | two sessions load and store: one request is not counted |
| BehaviourRuns.MoreBlockedThanTotalExample | app/services/scan_service.py:167-171 | one request in total, two of them blocked |
| Upsert.ImportInto | app/services/rules_service.py:461-569 | the import loop over a session that does not flush, with commit or rollback |
| Upsert.TotalIsAccountedFor | app/services/rules_service.py:461-473 | total = created + updated + errors |
| Upsert.StatsMean | app/services/rules_service.py:461-567 | errors are the items without an id, updates those whose id was there, creations the others |
| Upsert.ImportKeys | app/services/rules_service.py:469-567 | final ids are old ids plus bundle ids; rows outside the bundle are untouched |
| Upsert.ImportFailsIff | app/services/rules_service.py:535-569 | the commit fails iff the bundle names a new id twice |
| Upsert.ImportedRow | app/services/rules_service.py:493-567 | after an import a row that was there went through all its items in order; a new one is the row of its only item |
| RuleTables.RepeatedIdExample | app/services/rules_service.py:535-569 | a bundle that names one new rule twice is rolled back |
| RuleTables.UpdatedRuleColumns | app/services/rules_service.py:537-549 | a built-in row that was there takes stages, type, patterns and mode of the last item with its id, version of the bundle, and for name, description, severity, action, switch and category the last one named, else its own |
| RuleTables.NewRuleColumns | app/services/rules_service.py:551-566 | a new built-in row is its item with the defaults |
| RuleTables.UpdatedCustomColumns | app/services/rules_service.py:497-507 | the same for a custom row that was there; simple pattern fields and target files stay |
| RuleTables.NewCustomColumns | app/services/rules_service.py:509-531 | a new custom row, with simple pattern fields from its first pattern |
| RuleTables.CategoryOfMeans | app/services/rules_service.py:475-487 | the category is the first of the item's name, or else of the bundle's title, looked up among names, then labels |
| Upsert.ImportIsIdempotent | app/services/rules_service.py:461-569 | after any successful import, repeated ids included, importing again creates nothing and changes no row |
| RuleTables.RuleImportIsIdempotent | app/services/rules_service.py:533-567 | the same for the built-in table |
| RuleTables.CustomImportIsIdempotent | app/services/rules_service.py:493-532 | the same for the custom table |
| RuleTables.SeedingMeans | app/database.py:164-175 | a start imports each bundle or, if it repeats a new id, skips it; a further start with the bundle changes nothing |
| RuleTables.SwitchSurvivesReimports | app/database.py:164-175 | a rule's switch survives any number of imports that do not name "enabled" for it |
| RuleExport.ExportRulesToBundle | app/services/rules_service.py:612-726 | the exported bundle for given filters and row order |
| RuleExport.ExportSelects | app/services/rules_service.py:634-666 | which rows are exported |
| RuleExport.CategoryFilterMeans | app/services/rules_service.py:639-642 | the category filter, with an unknown name restricting nothing |
| RuleExport.ExportedHead | app/services/rules_service.py:691-720 | series, title and version of the bundle |
| RuleExport.FirstSeriesMeans | app/services/rules_service.py:694-708 | without a filter the series is that of the first built-in rule whose id has one |
| RuleExport.RuleEntryKeys | app/services/rules_service.py:644-658 | the entry of a built-in row, key by key |
| RuleExport.CustomEntryKeys | app/services/rules_service.py:667-689 | the entry of a custom row, key by key |
| RuleExport.RuleComesBack | app/services/rules_service.py:551-565 | which columns of a built-in row come back; description, category, series, source and version with their exact condition |
| RuleExport.SeriesSurvivesIff | app/services/rules_service.py:557-562 | through an export a rule keeps its series iff the export was restricted to one or the exported ids lead to it |
| RuleExport.SeriesFiltersFindIff | app/services/rules_service.py:634-641 | a rule that comes back is found by the same series filters iff its series is the bundle's |
| RuleExport.LostSeriesExample | app/services/rules_service.py:694-709 | an output rule exported behind an input rule is missing from a later export of its series |
| RuleExport.CustomComesBack | app/services/rules_service.py:509-530 | the same for a custom row; the four simple pattern columns come back iff they repeat the first stored pattern, with a confidence and the looked-up type |
| RuleExport.RuleTableRoundTrip | app/services/rules_service.py:551-567 | importing an export into an empty table creates every row, as the row of its entry |
| RuleExport.CustomTableRoundTrip | app/services/rules_service.py:509-532 | the same for custom rows |
| RuleExport.RuleReexportsIff | app/services/rules_service.py:644-658 | a row exports the same again iff its detection is in normal form and its category is named or the title leads to no other |
| RuleExport.CustomReexportsIff | app/services/rules_service.py:667-689 | for custom rows also: iff there are no target files |
| RuleExport.RuleReexportIsTheSameIff | app/services/rules_service.py:631-726 | a table exports the same multiset after the round trip, in any row order, iff all its rows are portable |
| RuleExport.CustomReexportIsTheSameIff | app/services/rules_service.py:661-726 | the same for custom rows |
| RuleExport.RuleReexportExample | app/services/rules_service.py:437-443 | a built-in rule loses target files; one without a category gains the title's |
| RuleExport.CustomReexportExample | app/services/rules_service.py:687-688 | a custom rule loses its target files |
| RuleExport.ImportedIsNormal | app/services/rules_service.py:437-443 | every imported detection is in normal form |
| RuleEngine.ReloadHoldsStoredRule | app/services/engine_service.py:97-196 | after a reload engine or scanner holds exactly the definition of each built-in row with its switch, and only one of them does |
| RuleEngine.ReloadedRuleColumns | app/services/engine_service.py:297-346 | after a reload the entry of a built-in row has the row's id, switch and stages (input if none) and its patterns by kind, value and confidence, references spelled out |
| RuleEngine.ReloadBringsRuleIntoAgreement | app/services/engine_service.py:157-178 | a built-in rule is active in its place iff its row is enabled |
| RuleEngine.ReloadBringsCustomIoIntoAgreement | app/services/engine_service.py:126-191 | a custom input/output rule with a pattern is active iff enabled, even if the reload is cut short |
| RuleEngine.ReloadBringsCustomIntoAgreementIff | app/services/engine_service.py:180-191 | any custom rule agrees unless it is a disabled code-review rule behind a disabled patternless rule |
| RuleEngine.CutShortExample | app/services/engine_service.py:180-191 | two rows after whose reload a disabled rule is live |
| RuleEngine.MistypedRuleExample | app/services/engine_service.py:168-178 | a disabled row whose type does not fit its stages ends the reload |
| RuleEngine.ReloadHoldsStoredCustom | app/services/engine_service.py:126-161 | after a reload engine or scanner, by type, holds the definition of each enabled custom row with a pattern, and neither holds anything for a row without one |
| RuleEngine.ReloadedCustomColumns | app/services/engine_service.py:398-484 | the same for an enabled custom row with a pattern, in engine or scanner |
| RuleEngine.LiveRuleMatchesAsStoredIff | app/services/engine_service.py:110-161 | a reloaded built-in rule, in engine or scanner, matches for every matcher and text what its stored patterns mean, iff some dictionary is active or its references repeat ordinary patterns |
| RuleEngine.AdditionsReachTheEngine | app/services/engine_service.py:114-161 | adding dictionary entries and reloading only makes a live rule, in engine or scanner, match more |
| RuleStore.CreatedRowExportsAsRequested | app/services/rules_service.py:254-284 | a created rule is exported as it was requested, and typed by its stages |
| RuleStore.CreateMeans | app/services/rules_service.py:246-286 | when a creation is accepted, and the row it adds, column by column |
| RuleStore.ChangeMeans | app/services/rules_service.py:298-360 | an update changes the columns asked for in one custom row, or the switch of one built-in row, and nothing else |
| RuleStore.RequestedCategory | app/services/rules_service.py:254-259 | the category of a created or updated rule is the first of the name asked for |
| RuleStore.DeleteMeans | app/services/rules_service.py:373-393 | a deleted custom rule is gone from table and engine and all else stays; of a built-in rule only the switch changes |
| RuleStore.DeletedIdIsFree | app/services/rules_service.py:251-252 | after a deletion a creation under the id is accepted |
| RuleStore.OtherTableUntouched | app/services/rules_service.py:246-589 | operations on one table leave the other alone |
| RuleStore.HandedToEngine | app/services/rules_service.py:130-138 | what a creation, update or custom import hands to the engine, column by column |
| RuleStore.UpdateCarriesFields | app/services/rules_service.py:303-328 | an empty update changes nothing; one with all fields of another row copies them, but never the detection object |
| RuleStore.UpdatesCompose | app/services/rules_service.py:298-341 | two updates of a custom rule in a row are, for row and engine, one update that asks for both |
| RuleStore.UpdateReachesExportIff | app/services/rules_service.py:315-319 | the export says the updated pattern iff no detection object is stored, or one of just that pattern |
| RuleStore.EveryStepKeepsRowsTyped | app/services/rules_service.py:319-321 | every operation keeps: code review iff "batch" among the stages |
| RuleStore.ReloadEstablishesAgreement | app/services/engine_service.py:97-196 | a reload establishes agreement whatever the engine held |
| RuleStore.StepKeepsRulesAgreeingIff | app/services/rules_service.py:246-393 | of all operations only the deletion of an enabled built-in rule breaks the agreement |
| RuleStore.StepKeepsCustomsAgreeingIff | app/services/rules_service.py:246-393 | of all operations only a custom import that disables a live rule breaks the agreement of custom input/output rules |
| RuleStore.ForeseenHappens | app/services/rules_service.py:493-532 | type, pattern value and switch of a rule after a custom import follow from table and bundle: the last "enabled" named, else the old switch |
| RuleStore.CustomImportAgreesIff | app/services/rules_service.py:574-579 | a custom import keeps agreement iff, by that forecast, it disables no live rule |
| RuleStore.AgreementOverRuns | app/services/rules_service.py:246-393 | built-in rules agree at the end of every run without such a deletion |
| RuleStore.CustomAgreementOverRuns | app/services/rules_service.py:246-579 | custom input/output rules agree at the end of every run without such an import |
| RuleStore.DeletedRuleStaysLiveExample | app/services/rules_service.py:386-391 | one enabled built-in rule, deleted, stays live |
| RuleStore.DisabledByImportExample | app/services/rules_service.py:507-579 | one enabled custom rule, disabled by a bundle, stays live |
| RuleStore.ReloadRestoresAgreement | app/services/engine_service.py:97-196 | after any run at all a reload restores agreement |
| CustomRules.MeansWhatItStoresIff | app/services/engine_service.py:439-484 | the live custom rule matches what its stored patterns mean, for every matcher and text, iff these, spelled out, all are the one live pattern |
| CustomRules.CreatedMeansIff | app/services/rules_service.py:268-284 | a created rule does iff the request speaks for itself, for usual kinds: iff it has a pattern value |
| CustomRules.ChangedMeansIff | app/services/rules_service.py:303-328 | an updated rule does iff the fields asked for mirror the detection object that stays, or speak for themselves without one |
| CustomRules.EditBreaksMeaningIff | app/services/rules_service.py:311-319 | of a rule with a detection object exactly the updates that change the live pattern break the meaning |
| CustomRules.ImportKeepsLivePattern | app/services/rules_service.py:495-508 | no import changes the live pattern of an existing rule |
| CustomRules.ImportedMeansIff | app/services/rules_service.py:493-532 | an imported rule does iff the old fields, or for a new rule the first pattern, mirror the bundle's patterns |
| CustomRules.ImportBreaksMeaningIff | app/services/rules_service.py:495-508 | of an existing rule exactly the imports that bring no new patterns keep the meaning |
| CustomRules.LiveSurvivesRoundTripIff | app/services/rules_service.py:509-530 | export and import leave the engine with the same definition iff no detection object is stored, or one whose first pattern is live |
| CustomRules.RoundTripUndoesEdits | app/services/rules_service.py:509-530 | after any update of an imported rule, export and import bring back the simple fields of the first import |
| CustomRules.EditedRowExample | app/services/rules_service.py:317-319 | imported with A, changed to B, exported and imported: A is live |
| CustomRules.TwoPatternsExample | app/services/rules_service.py:510-512 | a new rule with two patterns goes live with one |
| CustomRules.ReplacedPatternExample | app/services/rules_service.py:495-508 | A imported, then B over it: A stays live |
| CustomRules.StepKeepsMeaningIff | app/services/rules_service.py:246-579 | which creations, updates and imports keep all live custom rules meaning what they store, judged before the operation |
| CustomRules.MeaningOverRunsIff | app/services/rules_service.py:246-579 | over a run they all do throughout iff they do at the start and every operation is one of these |
| CustomRules.ReloadUpdates | app/services/engine_service.py:126-196 | after a reload the engine is up to date with the custom rows, whatever it held |
| CustomRules.StepKeepsUpToDate | app/services/rules_service.py:130-144 | every operation leaves the engine holding the simple fields of each enabled custom input/output rule, nothing for one without a pattern, and no id without a row |
| CustomRules.LiveCustomMatchesAsStoredIff | app/services/engine_service.py:439-484 | at the end of any run from an up-to-date engine, what is matched under an enabled custom rule's id is what the stored rule means iff its fields mirror its patterns |
| CustomRules.ReloadedCustomMatchesAsStoredIff | app/services/engine_service.py:126-161 | the same after a reload for custom rules of both types, in engine and scanner |
| RuleStore.RulesService.CreateRule | app/services/rules_service.py:246-295 | tables and engine after a creation, and when it is refused |
| RuleStore.RulesService.UpdateRule | app/services/rules_service.py:298-370 | tables and engine after an update of either kind of rule |
| RuleStore.RulesService.DeleteRule | app/services/rules_service.py:373-393 | tables and engine after a deletion |
| RuleStore.RulesService.ReloadRulesFromDb | app/services/engine_service.py:97-196 | engine after a reload, and whether it was cut short |
| RuleStore.RulesService.ImportRulesFromBundle | app/services/rules_service.py:533-589 | built-in table, statistics and engine after an import |
| RuleStore.RulesService.ImportCustomsFromBundle | app/services/rules_service.py:493-579 | custom table, statistics and engine after an import |
| ProxyText.ExtractContent | app/proxy/http_proxy.py:103-130 | the text is the system text followed by all message texts in order; the last loop adds nothing |
| ProxyText.EmptyMeansNoStrings | app/proxy/http_proxy.py:126-130 | an empty text means there is no string message |
| ProxyText.ScannedText | app/proxy/http_proxy.py:102-139 | a blank text is replaced by the first 10000 characters of the decoded body |
| ProxyText.MessagePartsAreContiguous | app/proxy/http_proxy.py:109-115 | every string message and text block stands in the text in one piece |
| ProxyText.SystemBlocksAreContiguous | app/proxy/http_proxy.py:121-124 | so does every block of the system prompt |
| ProxyText.SystemComesFirst | app/proxy/http_proxy.py:117-120 | a string system prompt stands in front with a line end |
| ProxyText.SystemBlocksAreReversed | app/proxy/http_proxy.py:121-124 | system blocks come out last first |
| ProxyText.MessagesInOrder | app/proxy/http_proxy.py:108-115 | message texts come in order |
| ProxyText.MessageIs | app/proxy/http_proxy.py:109-115 | the text of one message: a string or its text blocks, each with a line end |
| BatchScan.GroupByFile | app/services/scan_service.py:301-304 | each file's group is its findings in order |
| BatchScan.OfKeepsOrder | app/services/scan_service.py:301-304 | findings of a file keep their order |
| BatchScan.LessMeans | app/services/scan_service.py:309 | file names are sorted by characters, a prefix first |
| BatchScan.WorstSeverity | app/services/scan_service.py:307-325 | "P0" if a finding has it, else "P1", else "P2", else "ok" |
| BatchScan.FileResults | app/services/scan_service.py:306-332 | one result per file, sorted, with its findings and worst severity |
| BatchScan.TotalsAgree | app/services/scan_service.py:348-354 | the listed files are those with findings, strictly sorted, and their findings add up to all findings |

## Left out

- The matcher, scanner, aggregation and redaction of kasra-sdk, and what `track_behavior` and the metrics do: not in the repository.
- SHA-256, its JSON payload and timestamps: the digest is any function.
- Two rows with one id in both rule tables: what the engine does with two definitions of one id is unknown, so agreement is stated for ids that one table has; deleting a custom rule that had taken a built-in id is excluded from runs.
- Live placement of custom code-review rules between reloads, and exceptions of the engine that `create_rule` and `update_rule` swallow.
- Stored rows with an unknown match mode or a non-numeric confidence, for which a reload raises before it touches the engine, and the empty confidence, which an update can store and which reads as none; bundle versions that are not numbers; JSON null where a string or list belongs.
- Names, descriptions, severities, actions, categories and target files inside engine definitions: only id, patterns, stages and switch are followed.
- Any-mode is the only match mode given a meaning; all shipped rules use it. The stored mode of a custom rule never reaches the engine.
- `RuleStore.RulesService.ImportRulesFromBundle`: the column clean-up statement behind the seeding imports (database.py:177-185) is not part of it.
- Cancellation of a tunnel by `ConnectProxy.stop`, the dial's timeout clock, and a failing write or flush of a response.
- `SealRuns.EveryRowIsAccountedFor`: inserting and committing are one step, for log rows as for blocks, so ids follow commit order.
- Deletion of old log rows by the retention job, and gaps in autoincrement ids.
- `BehaviourRuns.TotalCountsAllIff`: the day's row exists when sessions overlap; two sessions that both insert it end in a key violation.
- First and last request times of a day, the second, never committed behaviour update of `scan_batch`, and floating-point rounding of the score.
- `migrate_rule`: whether the ORM notices a JSON object changed in place; the digit class of the regex engine is any predicate.
- Truncation and masking of matched text, status fields and other columns of log rows.
- Listing, filtering and paging endpoints, category and pattern-type CRUD, routing, authentication, configuration, the frontend and deployment: no state worth a proof.
