# FQDN-pair router: model and proofs

The router in `fqdnrules/` answers `(fqdn1, port, fqdn2)` with the most specific
rule registered for it. Names are matched through their ancestor wildcards, rules
live in a Redis-like map of hashes, and rules on the catch-all patterns (`*`, patterns
with one label left, and by the tag's form those whose last label but one begins with
`__tld__:`) are written to N replica keys of which a lookup reads one. There are
three implementations: Python with a Lua script, Go with the same script, and Go
with a flat scan and no script.

The project proves, for every input, every run of operations and every replica
count N:

- **Lookup is right.** Both lookup algorithms return the unblocked matching rule
  with the least pair of ranks, or nothing exactly when there is none, where
  "matching" is stated on the text of the name and not by the candidate list
  (`Store.RuleStore.LookupFlat`, `Store.RuleStore.LookupGrouped`,
  `Pattern.CandidatesAreTheMatches`). On any well-formed database, also one whose
  replicas disagree, the two algorithms return the same answer (`Store.LookupUnique`).
- **Replication is invisible.** Every run of writes and removals keeps all
  replicas equal to one simple map of rules; N, the tokens and the hash that
  picks a replica never show in an answer (`Rules.StepRefines`,
  `Replication.BucketCountIrrelevant`).
- **Writes may interleave command by command.** With writers serialised per
  triple, each replica holds the settled value or one that the operation in flight
  writes there, and all agree when none is (`Pipelines.BeforeOrAfter`); no third value
  beside before and after shows exactly for operations that do not contradict
  themselves (`Pipelines.OnlyTwoIff`). Which operations need the serialisation is
  decided for any number of them (`Overlaps.OverlapIff`).
- **Lookups need no snapshot.** However the reads of a lookup fall between the
  writers' commands, it answers for a map whose every triple has a value it had when its
  key was read (`Reads.LookupInFlight`), the settled one when no matching write overlaps
  (`Reads.UndisturbedLookup`); a run shows an answer of no single instant
  (`Reads.TornLookup`).
- **Keys land where the table says.** The checksum is the polynomial remainder of
  the data, the shares of the slot space are a partition with one owner a slot,
  three token searches build one table, and decimal texts reach every slot so that a
  table exists for every legal N (`Coverage.SearchSucceeds`). Exactly when all replicas
  of a namespace lie in their own shares is decided (`Sharing.PlacedIff`): without `{` in
  the namespace always, with one only if it stays open and its text happens to suit.
- **Keys never collide.** Within a namespace key text determines pattern, port and
  replica, for stores of any counts. Stores of several namespaces on one database each
  see their own rules only, if patterns have no colon or namespaces neither colon nor
  `{`; without that two of them can meet (`Keys.NamespacesMeet`).
- **Reachability is decided.** Exactly which rules some query can reach, from the scope
  and the shape of the two patterns (`Reach.ReachableIff`).
- **The concurrent memos publish one table**; the `Once` form builds at most once, and
  every fair schedule of it returns every call.
- **The benchmark's promises hold**: each hit query returns exactly its own rule,
  each miss query nothing, and the merged ten slowest are the ten slowest of all.

## Files

| file | part |
|---|---|
| `Text.dfy`, `Results.dfy` | strings: split, join, decimal text; results |
| `Pattern.dfy`, `Names.dfy` | normalization, hash tags, candidates, the matching relation; the same read off code points and labels |
| `Crc16.dfy`, `KnownAnswer.dfy`, `Slots.dfy`, `Coverage.dfy` | checksum, its known answer, shares of the slot space, token table and its existence |
| `Keys.dfy`, `Placement.dfy`, `Sharing.dfy` | key text, the slot it hashes to, and the slots that keys share |
| `Database.dfy`, `Rules.dfy` | the map of hashes, commands, operations, the simple map they refine |
| `Lookups.dfy`, `Script.dfy`, `Store.dfy` | what a lookup must answer, the script, the store |
| `Reach.dfy`, `Spread.dfy` | the rules that queries can reach; the replica and the texts they read |
| `Replication.dfy`, `Guard.dfy`, `Namespaces.dfy` | whole runs; the recorded count; stores of several namespaces |
| `Pipelines.dfy`, `Overlaps.dfy`, `Reads.dfy` | runs interleaved command by command; overlapping pipelines; lookups in between |
| `Memo.dfy` | the two concurrent memos of the table |
| `Benchmark.dfy`, `TopSlow.dfy` | generated rules and queries; the slowest queries |

A store is modelled as a class over a shared database object whose field the
pipelines update; its methods are proved against `Step` and `IsLookup`, and the
lemmas are about those. The checksum that picks a replica (crc32 in the source) is
an arbitrary function and every random draw an arbitrary value, so no statement
depends on their values.

## Where the code and its documentation disagree

The model follows the code.

- `put_many` is called order-independent. It is exactly when a port is bad, so that
  nothing is sent in any order, or rules that share a triple carry the same scope and
  id: `Replication.OrderIndependentIff`. What a half-applied load needs, that replaying
  it gives the state of one clean load, holds for every load: `Replication.LoadResumes`.
- The SINGLE_LEVEL list is called a strict subsequence of the MULTI_LEVEL list. It
  is a subsequence always, and a strict one exactly for names of three labels or
  more: `Pattern.SingleIsShallowMulti`.
- Normalization is described as lower-casing and stripping a trailing dot. It also
  strips white space, before the dots, and so is not idempotent: `"foo ."` becomes
  `"foo "`. A second pass changes nothing exactly when the character before the trailing dots
  is not white space (`Pattern.NormalizeAgain`, `Pattern.FooDot`). Go and Python also
  strip different characters; `Pattern.LanguagesAgree` says exactly when the outcomes
  are the same.
- Token keys are said to be placed by their token. The token is what is hashed exactly for
  namespaces without `{` (`Placement.PlacedIffNoBrace`); `Sharing.PlacedIff` says exactly
  when every replica lies in its own share.
- The guard at opening is said to stop a reader with another count from missing
  catch-all rules. A store that opens sees every rule except in one case: the writers
  have one bucket, so they record nothing, the reader has more, and a catch-all rule is
  live (`Guard.OpenSeesAllIff`, `Guard.GuardMissesSingleWriter`). It speaks of the moment
  of opening: a store that opened early is not refused later, and `Guard.SeesAllIff` says
  what it sees.
- The scope comment says the rank-0 candidate is never filtered. The code exempts
  only a pair exact on both sides, and the bare star (rank 255) counts as shallow. So a
  MULTI rule on live patterns is reachable exactly when both sides are exact or a `*.` side
  has room for two labels; on two stars, or a star and a name, it answers no query:
  `Reach.ReachableIff`, `Reach.StarMultiUnreachable`.
- A lookup is said to stay on three slots whatever the namespace, each script call on
  one. Three hashed texts a lookup and one slot a call hold exactly for namespaces that do
  not begin with `}` and, when they replicate, whose first opening brace is not closed at
  once; otherwise whole keys are hashed (`Sharing.ThreeTextsIff`, `Sharing.OneSlotPerCallIff`).
- `bucketing_and_routerd_explained.md` shows an older key form and older scope
  logic; the code's are modelled.

## Model

| member | source | states |
|---|---|---|
| Pattern.NormalizeMeans | fqdnrules/fqdn_pattern.py:86-103 | whatever counts as white space, a name is accepted exactly when its core, cut from white space, trailing dots and white space, lower-cased, has no star, no empty label and at most 20 labels; and that core is the result |
| Names.NormalizeOutcome | fqdnrules/fqdn_pattern.py:86-103 | which error every rejected name raises, the first that holds: an empty text, the bare star, and of the core a star in it, an empty label and more than 20 labels |
| Names.LowerIdentifies | fqdnrules/fqdn_pattern.py:95 | lower-casing identifies exactly the two forms of each of the 26 letters, and leaves no upper-case one |
| Names.CaseIgnored | fqdnrules/fqdn_pattern.py:86-103 | names that differ in the case of letters only have one outcome, result or error |
| Names.NoUpperCase | fqdnrules/fqdn_pattern.py:86-103 | an accepted name has no upper-case letter |
| Names.SpaceCodes | fqdnrules/go-router-service/pattern.go:84-105 | the white space of Go and of Python, by code point |
| Pattern.NormalizeAgain | fqdnrules/go-benchmark/pattern.go:84-105 | normalizing an accepted name again changes nothing if and only if the character before its trailing dots is not white space; for white space that does not depend on case, which both languages' does not (`Pattern.SpacesKeepCase`) |
| Pattern.FooDot | fqdnrules/fqdn_pattern.py:95 | the input `"foo ."` gives `"foo "`, and that gives `"foo"` |
| Pattern.LanguagesAgree | fqdnrules/go-router-service/pattern.go:84-105 | for every name, Go and Python both accept it with one result or both reject it, if and only if no separator control ends the text between Go's white space, or neither language's core is a clean name |
| Pattern.OnlyPythonAccepts | fqdnrules/fqdn_pattern.py:95-100 | the name `foo..` and a separator control is rejected by Go and is `foo` to Python |
| Pattern.NormalizeReaches | fqdnrules/fqdn_pattern.py:86-103 | the names that come out of normalization are exactly the clean lower-case ones that do not begin with white space |
| Keys.TagShape | fqdnrules/fqdn_pattern.py:106-124 | the tag of any pattern but `*` is the pattern's own end after a dot, with one dot in it, or the tld tag of a pattern with one label left |
| Pattern.CandidatesAreTheMatches | fqdnrules/fqdn_pattern.py:153-189 | the generated list is exactly the set of patterns that match, with ranks and depth flags those of the pattern's text, strictly increasing, at most 21 long |
| Pattern.RankDeterminesPattern | fqdnrules/fqdn_pattern.py:64-83 | two patterns that match one name with the same rank are the same |
| Names.MatchByLabels | fqdnrules/fqdn_pattern.py:153-189 | a pattern matches a name if and only if it is the name, the star, or `*.` before the labels left after dropping k >= 1 of them, k = 1 in SINGLE_LEVEL |
| Names.RankMeans | fqdnrules/fqdn_pattern.py:64-83 | the rank of a match is the number of labels its wildcard stands for, 0 exactly for the name itself and 255 for the star; it is deep exactly from two labels on |
| Names.ListSizes | fqdnrules/fqdn_pattern.py:171-189 | a name of n labels has n + 1 candidates in MULTI_LEVEL, 21 at most, and two or three in SINGLE_LEVEL |
| Pattern.ComputeCandidates | fqdnrules/fqdn_pattern.py:153-189 | the appending loop builds the specified list, in both modes, with tags and bucket index |
| Spread.CandidatesCarryResidue | fqdnrules/fqdn_pattern.py:169 | with N > 1 every candidate's bucket index is below N and differs from the name's checksum by a multiple of N; with one bucket it is 0 |
| Spread.ReadsResidue | fqdnrules/fqdn_router.py:245-256 | of the N keys of a replicated pattern a lookup reads the one at the residue of its name's checksum and no other, so each replica serves the names of its residue |
| Pattern.ComputeFieldCandidates | fqdnrules/fqdn_pattern.py:205-224 | the field side's loop builds the same list without tag and bucket |
| Pattern.SingleIsShallowMulti | fqdnrules/fqdn_pattern.py:159-161 | the SINGLE_LEVEL list is the MULTI_LEVEL list without its deep candidates, equal in all else; the two differ if and only if the name has three labels or more |
| Keys.BucketedIff | fqdnrules/fqdn_pattern.py:127-134 | a pattern is replicated if and only if it is `*`, has one label after its star, or its last label but one begins with `__tld__:` |
| Crc16.ComputeGo | fqdnrules/go-router-service/slots.go:34-47 | the 16-bit register loop computes the checksum |
| Crc16.ComputePython | fqdnrules/fqdn_slots.py:33-48 | the wide shift with its mask computes the same checksum |
| Crc16.MaskedShift | fqdnrules/fqdn_slots.py:44-47 | masking after shift and exclusive or is the 16-bit shift, which drops the top bit |
| Crc16.CrcIsRemainder | fqdnrules/fqdn_slots.py:33-48 | for every byte string, and its message the list of eight bits a byte whose value is the string read in base 256, some quotient divides the message times x^16 by x^16+x^12+x^5+1 with the checksum as remainder |
| Crc16.ByteValue | fqdnrules/fqdn_slots.py:41-42 | the bits of a byte, the highest first, have the byte as their value |
| Crc16.MessageValue | fqdnrules/fqdn_slots.py:41-42 | the bits that the loop reads from any byte string are the binary text of the string read in base 256 |
| KnownAnswer.ShiftIsNext | fqdnrules/fqdn_slots.py:43-47 | one shift of a register that holds n leaves 2n, or 2n - 65536 with 4096, 32 and 1 exclusive-ored, for every n below 65536 |
| KnownAnswer.KnownAnswer | fqdnrules/fqdn_slots.py:38 | the checksum of the text `123456789` is 0x31C3 |
| Crc16.RemainderUnique | fqdnrules/fqdn_slots.py:33-48 | quotient and remainder of that division are unique, so the checksum is the remainder |
| Crc16.CrcLinear | fqdnrules/go-benchmark/slots.go:38-49 | the checksum of an exclusive or of equally long data is the exclusive or of the checksums |
| Crc16.Slot | fqdnrules/fqdn_slots.py:51-53 | masking with 0x3FFF is the checksum's value modulo 16384 |
| Slots.OwnerIsUnique | fqdnrules/fqdn_slots.py:72-81 | the shares cover the slot space from 0 to its end, and slot x lies between floor(bS/N) and floor((b+1)S/N) if and only if b is floor(((x+1)N-1)/S) |
| Slots.StartsAreFloors | fqdnrules/fqdn_slots.py:72-81 | share i begins at the greatest whole number not above iS/N |
| Slots.ShareWidths | fqdnrules/fqdn_slots.py:72-81 | for 1 <= N <= S every share is nonempty and any two widths differ by at most 1 |
| Slots.ModuloMatchMeans | fqdnrules/fqdn_slots.py:84-87 | the residue test is true if and only if the interval holds a slot congruent to the bucket index |
| Slots.GoModuloMatch | fqdnrules/go-router-service/slots.go:97-102 | Go's remainder taken twice is Python's, also for a negative difference |
| Slots.GoRemMeans | fqdnrules/go-router-service/slots.go:93-99 | Go's remainder differs from its left operand by a multiple of n, is smaller than n, and has the operand's sign |
| Slots.ModuloSafeWhenWide | fqdnrules/fqdn_slots.py:90-103 | every N with N*N <= S is modulo-safe, for any slot count S |
| Slots.IsModuloSafe | fqdnrules/go-router-service/slots.go:107-115 | the loop with its early exit decides modulo-safety |
| Slots.BisectRight | fqdnrules/fqdn_slots.py:179 | bisect over the starts finds the slot's owner |
| Slots.SortSearch | fqdnrules/go-benchmark/slots.go:193-195 | Go's binary search for the first start past the slot finds the same owner |
| Slots.SearchInts | fqdnrules/go-router-service/slots.go:225 | the search for slot + 1 finds the same owner |
| Slots.ComputeTablePython | fqdnrules/fqdn_slots.py:106-186 | an error for a count out of range; a table, with each token the least counter that fits its bucket, if such counters exist within the source's cap; the cap error if and only if they do not |
| Slots.ComputeTableService | fqdnrules/go-router-service/slots.go:203-235 | the same result from flags and plain arrays |
| Slots.ComputeTableBenchmark | fqdnrules/go-benchmark/slots.go:166-207 | the same result where an empty token marks a free bucket |
| Slots.DrawsFirstFit | fqdnrules/fqdn_slots.py:170-184 | after any number of draws each bucket holds its least fitting counter, or no counter so far fits it |
| Slots.SearchEnds | fqdnrules/fqdn_slots.py:170-176 | the buckets are full within the cap if and only if each bucket has a fitting counter within it |
| Slots.TableUnique | fqdnrules/fqdn_slots.py:147-156 | the bucket count alone determines the table |
| Slots.TokensArePlaced | fqdnrules/fqdn_slots.py:125-127 | each token hashes into its own bucket's share, and to the right residue when modulo-safe; tokens are digits only and pairwise distinct |
| Slots.TokensAreFirst | fqdnrules/fqdn_slots.py:158-184 | the token of bucket b is the first number, counting from 0, whose decimal text hashes between floor(bS/N) and floor((b+1)S/N), and to residue b when every share has a slot of its own residue |
| Slots.CapMeans | fqdnrules/fqdn_slots.py:106-118 | the cap is 200 N c + 10000, where e^(c-1) < max(N, 2) <= e^c |
| Slots.Utf8CharMeans | fqdnrules/fqdn_slots.py:68-69 | the encoding of every character, one to four bytes, is the shortest that decodes to it |
| Coverage.Relation | fqdnrules/fqdn_slots.py:44-45 | the register's shifts obey x^16 = x^12 + x^5 + 1 at every power |
| Coverage.EveryPower | fqdnrules/fqdn_slots.py:33-48 | every power of x modulo the generator is the checksum of a string of bytes under 8 |
| Coverage.EverySlot | fqdnrules/fqdn_slots.py:177-178 | every one of the 16384 slots is the slot of some decimal text |
| Coverage.SearchSucceeds | fqdnrules/fqdn_slots.py:153-184 | for every legal count there is a cap from which on every search returns the table |
| Coverage.TableExists | fqdnrules/go-router-service/slots.go:203-235 | for every legal count there is a table |
| Memo.RaceAgrees | fqdnrules/go-benchmark/slots.go:147-207 | under every schedule, callers with one count that returned hold one pointer, and it reads as the sequential result |
| Memo.RacePublishedStays | fqdnrules/go-benchmark/slots.go:204-206 | a published table is never replaced |
| Memo.OnceAgrees | fqdnrules/go-router-service/slots.go:162-201 | under every schedule the search runs at most once for each count, and callers that returned hold its one result |
| Memo.OnceProgress | fqdnrules/go-router-service/slots.go:168-173 | while a call has not returned some goroutine can step: waiting on the Once never deadlocks |
| Memo.OnceReturns | fqdnrules/go-router-service/slots.go:168-173 | every schedule of more than three rounds a goroutine, each round naming all of them in any order, returns every call |
| Keys.KeyInjective | fqdnrules/fqdn_router.py:154-165 | within a namespace key text determines pattern, port and, for a replicated pattern, the replica; no condition on namespace or pattern |
| Spread.KeyTexts | fqdnrules/fqdn_router.py:154-168 | the keys of a name, of the bare star and of a tld pattern in an unreplicated store, and the metadata key, in full |
| Spread.ReplicaKeyText | fqdnrules/fqdn_router.py:162-164 | the key of each replica of the bare star, in full |
| Keys.KeyIsNotMeta | fqdnrules/fqdn_router.py:154-168 | no rule key of any store is the metadata key of any namespace |
| Keys.MetaKeyInjective | fqdnrules/fqdn_router.py:167-168 | metadata keys of two namespaces differ |
| Keys.NamespacesDisjoint | fqdnrules/fqdn_router.py:154-180 | for patterns without a colon, stores of two namespaces share no key, whatever their counts |
| Keys.NamespacesMeet | fqdnrules/fqdn_router.py:165 | namespace `x` with pattern `W:a.b}:m.a.b` and namespace `x:a.b}:W` with pattern `m.a.b` have one key for every port |
| Keys.PlainNamespacesDisjoint | fqdnrules/fqdn_router.py:154-165 | stores of two namespaces without `:` and `{` share no key either, for any patterns and counts |
| Keys.KeyAcrossCounts | fqdnrules/fqdn_router.py:154-165 | stores of one namespace with any two counts share a key only for one pattern and port, both or neither replicated, at one index with one token |
| Keys.TagPatternInjective | fqdnrules/fqdn_pattern.py:106-124 | a tag followed by its pattern, any text between, determines the pattern |
| Placement.KeySlotService | fqdnrules/go-router-service/slots.go:58-79 | the two byte scans compute the slot of the first nonempty braced span, or of the whole key |
| Placement.HashedTextMeans | fqdnrules/fqdn_slots.py:56-69 | for every key, what is hashed is the text between its first opening brace and the next closing one, when there is such a text and it is not empty, and otherwise the key |
| Placement.ReplicaIsPlaced | fqdnrules/fqdn_router.py:162-164 | with the computed table and a namespace without `{`, the key of replica b hashes to the table's slot b, inside share b, with the right residue when modulo-safe |
| Placement.PlacedIffNoBrace | fqdnrules/go-router-service/store.go:106-119 | the text hashed for every replica is its token if and only if the namespace has no `{` |
| Sharing.PlacedIff | fqdnrules/fqdn_router.py:154-164 | with the computed table, every replica key of every replicated pattern has its slot in its own share, with or without the residue, if and only if the namespace has no `{`, or an unclosed one whose text before each token hashes into that token's share |
| Sharing.FlipCrc | fqdnrules/fqdn_slots.py:33-48 | changing bit j < 3 of one byte changes the checksum by x^(16 + j + 8 * bytes after it) |
| Placement.GroupSharesSlot | fqdnrules/fqdn_router.py:245-256 | for every namespace the keys of one tag hash one text, the same for all patterns and ports, if the namespace leaves them a nonempty span, and otherwise each is hashed whole |
| Placement.OneTextPerCallIff | fqdnrules/fqdn_router.py:31-35 | every script call of every lookup hashes one text if and only if the namespace does not begin with a closing brace and, when it replicates, its first opening brace is not closed at once |
| Sharing.OneSlotPerCallIff | fqdnrules/fqdn_router.py:31-35 | every script call of every lookup declares keys of one slot if and only if the same condition holds |
| Sharing.ThreeTextsIff | fqdnrules/fqdn_pattern.py:20-24 | every lookup hashes at most three texts if and only if the same condition holds |
| Placement.LookupSlots | fqdnrules/fqdn_router.py:31-35 | under that condition, which texts a lookup's keys hash: three at most, and with N > 1 two, the catch-all tiers sharing one |
| Placement.AtMostThreeGroups | fqdnrules/fqdn_pattern.py:20-24 | a lookup makes at most three groups |
| Database.SameFields | fqdnrules/fqdn_router.py:214-218 | a database that drops empty hashes is determined by its fields |
| Database.CommandMeans | fqdnrules/fqdn_router.py:193-225 | after a write the field holds the value, after a removal nothing, and every other field what it held |
| Database.Db.Execute | fqdnrules/fqdn_router.py:193-197 | a pipeline applies its commands in order; a removal replies whether the field was there |
| Rules.StepRefines | fqdnrules/fqdn_router.py:182-225 | put, put_many and delete keep every replica of every triple equal to the simple map after the same operation |
| Rules.AcceptedIff | fqdnrules/fqdn_router.py:125-127 | a put or load is carried out if and only if all its ports are in 1..65535; a removal always |
| Rules.LastRuleWins | fqdnrules/fqdn_router.py:199-212 | after a load each triple holds the scope and id of the last of the load's rules at it |
| Rules.OthersStay | fqdnrules/fqdn_router.py:199-212 | a load changes nothing at a triple that none of its rules has |
| Rules.OneOperation | fqdnrules/fqdn_router.py:186-225 | a put is a load of one rule, and a removal takes its triple away and no other |
| Spread.StoredText | fqdnrules/fqdn_router.py:189 | the stored text is the letter S, M or B and then the id |
| Store.RuleStore.Open | fqdnrules/fqdn_router.py:131-152 | opening only reads; it fails if and only if a count is recorded and the language does not read it as a number, or reads another |
| Store.RuleStore.Put | fqdnrules/go-router-service/store.go:141-162 | the new database is the old one after the rule's commands, none on a bad port; it refines the simple map's update |
| Store.RuleStore.PutMany | fqdnrules/fqdn_router.py:199-212 | the new database is the old one after the load's commands, none if any port is bad; it refines adding the rules in order |
| Store.RuleStore.BuildLoad | fqdnrules/go-benchmark/router.go:235-258 | the loop's pipeline is all replica writes in order, then the count if any rule is replicated; nothing if any port is bad |
| Store.RuleStore.Delete | fqdnrules/fqdn_router.py:214-225 | the field is gone from every replica; True if and only if some replica had it, which is if and only if the simple map had the rule |
| Script.BitsRoundTrip | fqdnrules/fqdn_router.py:64-70 | parsing a comma-joined bit list gives back the bits, for every list |
| Script.BitText | fqdnrules/fqdn_router.py:243 | the text of a true and a false bit is `1,0` |
| Script.EvalLookup | fqdnrules/fqdn_router.py:72-99 | the script returns the first unblocked pair in key-then-field order, or nil when every pair is absent or blocked |
| Script.GroupByTag | fqdnrules/go-benchmark/router.go:314-322 | groups are by tag, tags without repetition in the order of their first candidates, every candidate in its group, order kept |
| Script.ScanGroup | fqdnrules/fqdn_router.py:249-266 | one script call, its indices turned back into candidates, is the least visible pair of the group |
| Lookups.ScanMerge | fqdnrules/go-benchmark/router.go:365-385 | the better of two groups' answers is the answer for both groups together |
| Lookups.ScanIsAnswer | fqdnrules/fqdn_router.py:227-280 | when the one replica a query reads holds what a simple map holds, the scan's result is the map's most specific unblocked rule |
| Lookups.ScanReads | fqdnrules/fqdn_router.py:31-35 | a scan depends only on what its own fields hold |
| Lookups.AnswerUnique | fqdnrules/fqdn_router.py:228-235 | that answer is unique |
| Lookups.AnswerIsLeast | fqdnrules/fqdn_router.py:228-235 | a found rule is eligible, with its own id and ranks, and no eligible rule has a smaller first rank, or the same and a smaller second |
| Reach.EligibleByScope | fqdnrules/fqdn_router.py:85-93 | for clean names and each mode, by matching alone: a BOTH rule is eligible if and only if both patterns match; a SINGLE rule if and only if both match in SINGLE_LEVEL; a MULTI rule if and only if both sides are exact, or the mode is MULTI_LEVEL and both match in it but not both in SINGLE_LEVEL |
| Reach.DeepIffNotSingle | fqdnrules/fqdn_pattern.py:159-161 | a match is deep if and only if SINGLE_LEVEL does not have it |
| Lookups.MultiSeesMore | fqdnrules/fqdn_pattern.py:159-161 | on any well-formed database, replicas in step or not, a SINGLE_LEVEL hit implies a MULTI_LEVEL hit at least as specific |
| Reach.ReachableIff | fqdnrules/fqdn_pattern.py:52-60 | for any patterns and each mode: some accepted query makes a live rule eligible if and only if each side is `*`, a normal name or a `*.` suffix with room for a label, and for scope M both sides are names, or the mode is MULTI_LEVEL and a `*.` side has room for two |
| Reach.StarMultiUnreachable | fqdnrules/fqdn_router.py:89-93 | a rule with scope M on a star and anything but a `*.` pattern answers no query |
| Store.RuleStore.LookupFlat | fqdnrules/go-router-service/store.go:235-296 | the flat scan answers with the errors in order, the least visible pair on any database, and the most specific unblocked rule on any database that stands for a map |
| Store.RuleStore.LookupGrouped | fqdnrules/fqdn_router.py:227-280 | the same for one script call a tag and the merge over groups |
| Spread.ErrorOrder | fqdnrules/fqdn_router.py:236-238 | a bad first name's error comes before the second's, and both before the port's, which is raised exactly outside 1..65535 |
| Store.RuleStore.FirstInRows | fqdnrules/go-router-service/store.go:265-295 | the nested early-exit scan of the fetched rows returns the least visible pair of any database that has those rows |
| Store.LookupUnique | fqdnrules/go-router-service/store.go:227-234 | the two algorithms return the same match, ranks, patterns and id on every database |
| Replication.RunRefines | fqdnrules/fqdn_router.py:182-225 | any run of operations refines the same run on the simple map |
| Replication.ReplicasAgree | fqdnrules/fqdn_router.py:170-176 | after any run from empty, any two replicas of a triple hold the same, and it is what the simple map holds |
| Replication.ReachableLookup | fqdnrules/fqdn_router.py:227-280 | in every reachable database every lookup answers as the simple map of the run |
| Replication.BucketCountIrrelevant | fqdnrules/fqdn_pattern.py:26-30 | two stores with any counts, tokens and replica choice, after the same run, answer every lookup alike |
| Replication.LoadResumes | fqdnrules/fqdn_router.py:199-212 | after any part of a load's commands, in any order and number, replaying the whole load gives the state of one clean load |
| Replication.OrderIndependentIff | fqdnrules/fqdn_router.py:199-212 | a load's result is independent of order if and only if some port is bad or rules sharing a triple carry the same value |
| Guard.RecordRun | fqdnrules/fqdn_router.py:193-212 | the recorded count after any run is N if some accepted write was replicated, and absent otherwise; removals never change it |
| Guard.ClaimsIff | fqdnrules/fqdn_router.py:186-212 | exactly the accepted writes of a rule that has more than one key record the count; removals do not |
| Guard.CountIsLast | fqdnrules/fqdn_router.py:196-211 | the count is the last command of such a write, after all replicas, and no other command touches its key |
| Guard.ReadersRead | fqdnrules/go-router-service/store.go:92-95 | Python's int reads the recorded text of every count as that count, and Go's Atoi exactly those below 2^63 |
| Guard.PythonReadsGo | fqdnrules/fqdn_router.py:143-145 | Python reads every text that Go reads, as the same number |
| Guard.OnlyPythonReads | fqdnrules/fqdn_router.py:143-145 | a text with a space and an underscore is 16 to Python and no number to Go |
| Guard.OpenGuard | fqdnrules/go-router-service/store.go:80-103 | after any run, opening with another count fails if and only if a replicated write was made |
| Guard.OpenErrors | fqdnrules/go-router-service/store.go:86-102 | opening passes if and only if no count is recorded or the recorded text reads as the one asked for; a text that does not read as a number has its own error |
| Guard.OpenSeesAllIff | fqdnrules/fqdn_router.py:136-142 | after any run, a store of the namespace that opens stands for the run's simple map if and only if not: the writers have one bucket, it has more, and a catch-all rule is live |
| Guard.GuardMissesSingleWriter | fqdnrules/fqdn_router.py:136-142 | a run with one bucket never trips the guard, and a store with more finds no replica of any catch-all rule |
| Guard.SeesAllIff | fqdnrules/fqdn_router.py:136-142 | at any time and whatever was on record at opening, a store stands for the map of the namespace's writers, who use any count, if and only if neither replicates, or both do and its tokens are a beginning of theirs, or no catch-all rule is live |
| Guard.EarlyReaderMisses | fqdnrules/go-router-service/store.go:80-84 | a store with other tokens that opens before the first replicated write is never refused, and after any later writes sees everything if and only if no catch-all rule is live |
| Namespaces.NamespacesIsolated | fqdnrules/fqdn_router.py:154-180 | an operation changes no rule and no record of another namespace, if patterns have no colon or both namespaces neither `:` nor `{` |
| Namespaces.OwnRunOnly | fqdnrules/fqdn_router.py:154-180 | under that condition, after any interleaved run of stores of several namespaces, a store's rules and record are those of its own operations alone |
| Namespaces.LookupAmongNamespaces | fqdnrules/fqdn_router.py:227-280 | and each lookup answers as its own namespace's simple map |
| Pipelines.ExecKeeps | fqdnrules/fqdn_router.py:193-212 | every interleaving of any number of writers' commands, any loads included, serialised per triple, keeps every replica at what the part of the pipeline sent so far leaves of the settled value |
| Pipelines.BeforeOrAfter | fqdnrules/go-benchmark/router.go:210-258 | in every such interleaving each replica holds the settled value or one that the operation in flight writes at its triple, and the settled one when none is in flight |
| Pipelines.OnlyTwoIff | fqdnrules/fqdn_router.py:199-212 | while an operation is in flight its replicas show only the value before and the one after, in every state of every interleaving, if and only if it is no load with conflicting rules for one triple |
| Pipelines.LoadShowsMiddle | fqdnrules/fqdn_router.py:199-212 | a load of two conflicting rules for one triple shows the first one's value on its way |
| Pipelines.QuietRepresents | fqdnrules/go-benchmark/router.go:210-287 | with no write in flight all replicas stand for the settled map |
| Reads.LookupInFlight | fqdnrules/go-router-service/store.go:255-263 | in every such interleaving, each key of a lookup read at any point of it, the lookup answers for a map whose every triple has a value it may show in the state in which its key is read |
| Reads.UndisturbedLookup | fqdnrules/go-router-service/store.go:255-296 | it answers for the settled map when no write to a triple the query can match is in flight during the reads |
| Reads.TornLookup | fqdnrules/go-router-service/store.go:255-263 | a lookup that reads one key before two puts and another after them returns an answer that no instant of the run has |
| Overlaps.MergeSeen | fqdnrules/fqdn_router.py:193-225 | after any interleaving of pipelines a field holds what one of the pipelines that touch it would leave alone |
| Overlaps.OverlapIff | fqdnrules/fqdn_router.py:193-225 | every interleaving of the whole pipelines of any operations, of any number, keeps all replicas in step if and only if no two of them leave different values at one replicated triple |
| Overlaps.UnserialisedDiverge | fqdnrules/fqdn_router.py:193-197 | two puts of one replicated triple with different values have an interleaving that leaves its first two replicas different |
| Benchmark.BuildKeySizes | fqdnrules/benchmark.py:87-101 | for any draws the sizes are the drawn ones, the last trimmed, all positive, and sum to the rule count |
| Benchmark.PrefixSums | fqdnrules/go-benchmark/layout.go:109-117 | the running sums |
| Benchmark.KeyForRule | fqdnrules/go-benchmark/layout.go:125-131 | binary search inverts the prefix sums: the index is at that key and position; past the end it gives the key after the last |
| Benchmark.PlaceUnique | fqdnrules/go-benchmark/layout.go:122-131 | an index has one key and position |
| Benchmark.PlaceInRange | fqdnrules/go-benchmark/layout.go:104-117 | every key and position is that of an index in range, so the correspondence is one to one and onto |
| Benchmark.KeyOfUnique | fqdnrules/go-benchmark/main.go:169-172 | the key that rule generation uses is the one key whose place the index is |
| Benchmark.PatternLabels | fqdnrules/go-benchmark/main.go:160-180 | a generated source pattern is `*` exactly in the first tier, and else a wildcard before one `ztld` label or before the four labels of its key |
| Benchmark.ReplicatedRules | fqdnrules/go-benchmark/main.go:160-180 | a generated rule is on a replicated tier if and only if its index is in the first two tiers |
| Benchmark.TldRules | fqdnrules/go-benchmark/rulemix.go:57-59 | a tld rule has one label after its star, and two share it if and only if their tier indices are congruent modulo 20 |
| Benchmark.ApexRules | fqdnrules/go-benchmark/main.go:154-174 | two apex rules share pattern and port if and only if the layout puts their tier indices at one key |
| Benchmark.ZoneText | fqdnrules/go-benchmark/main.go:150-173 | the zone of key 12345 is `host12345.corp345.dragonfly2345.com` |
| Benchmark.RuleTexts | fqdnrules/go-benchmark/main.go:160-180 | the three rules of a mix of one rule a tier, in full |
| Benchmark.QueryTexts | fqdnrules/go-benchmark/main.go:182-205 | the names of the hit queries of those rules |
| Benchmark.MissTexts | fqdnrules/go-benchmark/main.go:212-220 | the names of a miss query |
| Benchmark.Ports | fqdnrules/go-benchmark/main.go:23 | the ports 443, 8443 and 80 in turn |
| Benchmark.PartitionRuleCounts | fqdnrules/go-benchmark/rulemix.go:17-32 | the three counts add up for any two products; when the products are near the shares of valid rates all counts are natural, the global one is the whole number nearest to its share, halves up, and the tld one is too or, leaving no apex rule, gives up the one rule by which rounding exceeds the total |
| Benchmark.RoundMeans | fqdnrules/go-benchmark/rulemix.go:20-21 | rounding gives the nearest whole number, halves away from zero |
| Benchmark.ExactShares | fqdnrules/go-benchmark/rulemix.go:34-45 | rates that pass validation have such products |
| Benchmark.OnlyRule | fqdnrules/go-benchmark/main.go:160-205 | among all generated rules, query i has exactly one eligible rule, rule i, in both modes |
| Benchmark.HitQueriesHit | fqdnrules/go-benchmark/main.go:182-205 | after any batches that load all rules, each hit query returns exactly `rule:i`, in both modes, for any N and layout |
| Benchmark.MissQueriesMiss | fqdnrules/go-benchmark/main.go:207-220 | every miss query returns nothing |
| TopSlow.InsertTopSlow | fqdnrules/go-benchmark/main.go:315-327 | the list stays sorted and capped, and stays a top ten of the entries seen, of any list and entry |
| TopSlow.MergeTopSlow | fqdnrules/go-benchmark/main.go:547-554 | merging the workers' lists gives a top ten of all entries of all workers |
| TopSlow.TopOfTops | fqdnrules/go-benchmark/main.go:311-314 | a top ten of top tens is a top ten of everything, however entries were spread over workers |
| TopSlow.TopLatenciesUnique | fqdnrules/go-benchmark/main.go:311-314 | any two top tens of the same entries have the same latencies in the same order |

## Left out

- Pattern.NormalizeMeans: holds for any set of white space, but the stores use the six characters both languages strip; Unicode white space and lower-casing beyond ASCII are not modelled.
- Crc16.ComputeGo: words are lists of 16 bits; `KnownAnswer.ShiftIsNext` says what a shift does to their integer value.
- Slots.ComputeTablePython: the logarithm in the cap is a table of the whole parts of the powers of e (`Slots.CapMeans`, for e between two decimals of ten digits), where the source computes it in floating point. Some cap suffices for every legal N (`Coverage.SearchSucceeds`); that the source's own one does is a finite fact for each N and is not proved. `num_buckets < 1`, which the Go constructors raise to 1, is an error of the table here.
- Keys.KeyInjective: a store's tokens are any distinct digit texts; `Slots.TokensArePlaced` shows the computed table provides them. A store for which the token search fails cannot be opened in Go and fails at its first replicated key in Python; it has no model here.
- Guard.ReadersRead: the two readers are modelled for ASCII text; Python's Unicode digits and its limit on very long numbers are not.
- Store.RuleStore.LookupGrouped: the method reads one database throughout; `Reads` puts every key's read at its own point of an interleaving. The range checks Go makes on a reply the script cannot give are not modelled.
- Store.RuleStore.LookupFlat: fields with an empty stored value, on which Go would panic, cannot arise from the writers and are excluded by the well-formedness of the database.
- TopSlow.InsertTopSlow: lists are values, the entry carries its latency as a real number and an id, and the unstable library sort is any sorted permutation; the slice's reuse of its array is not modelled.
- Benchmark.BuildKeySizes: the tier of a draw and each drawn size are arbitrary.
- The Go scope byte outside S, M, B; a nil or wrongly typed reply; context cancellation and every I/O error.
- Connections, pools, TLS, script loading, gRPC, the servers and their protocol files: I/O.
- `recommended_num_buckets`, command lines, reports, timing, latency statistics, and the golden tables: formatting, or finite facts.
- `go-router-service/layout.go` and `rulemix.go`: copies the service does not use. `fan-out-global-rules-proposal.md`: not implemented.
- Modulo-safety for particular N above the N*N <= S bound: finite facts.
- The diagnosis scripts, `memoryBenchmarkScript`, `fast_api_snack_bar` and `cdcJSONSearch`: unrelated to the router's logic.
