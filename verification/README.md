# Verified models of dowse

Dafny models of the parts of dowse that carry the most logic, with proofs of what they promise.
`dafny verify dfyconfig.toml` checks all of them together. Each model follows its C source in form:
records that the code updates in place are classes, loops are loops with invariants, and each such
method is proved against a function or predicate whose own properties are then proved as lemmas.

- **SHA-256** (`Fips180`, `Fips180Vector`, `ShaContext`, `Sup`). `Fips180` is the standard, FIPS 180-2,
  including where its constants come from, and `Fips180Vector` proves its first known answer.
  `ShaContext` is the streaming code, whose 32-bit words are 64 bits wide with high halves that are
  never cleared, whose rounds rotate register names and whose length counter is split. `Sup` is the
  hashing of a file. For every cut of a message into pieces the digest is that of the standard.
- **CRC-32 and the hash map** (`Crc32`, `HashTable`, `HashModel`, `Hashmap`). The table loop is the
  bit-at-a-time register. The map is proved for every hash function and every sequence of answers of the
  allocator; put and rehash call each other, and a rehash can start another on a half-filled table. A put
  after a remove can fill a hole in front of an older copy of its key: exactly then the table stops being
  a map, and the next rehash makes it one again, with the copy in the highest slot. Gets still answer as
  a map would until a key with two copies is removed or a rehash keeps the older one.
- **The pgld blocklist** (`Ranges`, `Merging`, `Blocklist`, `Text`, `ListFormat`, `ListLines`, `Pgld`),
  in the form without names. From list files to the verdict on a packet, over every order in which
  qsort may leave equal starts: listed addresses are dropped, and no other but in one case, whose exact
  condition is proved. Every p2p, ipfilter.dat and bare range line loads as its range,
  and a dumped list as itself.
- **The DHCPv6 client** (`Retransmission`, `Bindings`, `LeaseOrder`, `LeaseSelection`, `LeaseMerge`,
  `Instants`, `LeaseExpiry`). Whole exchanges of retransmissions (section 14 of RFC 3315), the choice of
  a lease (section 17.1.3 of RFC 3315), merging an older lease into a newer one, and the timers of a
  bound lease up to its last expiry.
- **The DHCPv4 client** (`LeaseTimers`, `StatePanic`). The timer arithmetic with its overflow guards
  (section 4.4.5 of RFC 2131), for 32-bit and 64-bit time_t, and the rotation through recorded leases.
- **The redis lock** (`RedisLock`). All interleavings of any number of processes, with compare and
  delete as two commands.
- **seccrond** (`CronField`, `Cron`). The field parser, the matcher, the spacing of repeated jobs and
  the job table over whole runs.

Findings about the code, each with a lemma:

- The length counter of `sha256_update` is exact if and only if its low word plus the length of the
  update is below 2^33 (`ShaContext.CounterExactIff`). The callers stay far below that.
- `hashmap_put` after `hashmap_remove` can leave two copies of a key, and removing it then brings the
  old value back (`HashTable.StaleIsReachable`, `HashTable.StaleValueReturns`).
- The loader accepts ranges that end before they start. `blocklist_merge` copes with them except for one
  that starts at 255.255.255.255, which can be confused with a blanked entry: then 255.255.255.255 may be
  blocked although no list has it. That cannot happen if and only if no two entries touch, or there is no
  such entry, or 255.255.255.255 or 255.255.255.254 is covered (`Merging.SortMergeKeepsIff`,
  `Pgld.VerdictsRightIff`).
- The loop of `dhc6_best_lease` does not depend on the order of the list if and only if no lease
  reaches the minimum score, or none that stays below it has a preference above all of those that do
  (`LeaseOrder.OrderFreeIff`). For the leases that the client lets in, those below are the ones that lack
  a required option (`LeaseSelection.AcceptedOrderFreeIff`), and such lists occur
  (`LeaseSelection.AcceptedDependsOnOrder`).
- The guards on the final additions in `dhcpack` fall back to a 32-bit TIME_MAX also where time_t has
  64 bits, so they keep the order of the timers if and only if the clock is not within 2^32 seconds of
  the end (`LeaseTimers.InOrderIff`).
- The lock excludes if and only if no lock has a time to live and only owners unlock, each once, or
  there is nobody to exclude (`RedisLock.MutexIff`). Keys need not be unique for that.
- `parsefield` counts the slots of a list by its digits and commas and fills them with strtol, which also
  takes white space and signs, so a text such as `1,+2,3` has more values than slots; and a star that is
  neither alone nor followed by a slash, as in `*5`, leaves the field unset, which is then walked and
  freed. It keeps to its memory if and only if the text is no such star and is not a list that starts
  within the limits, has a number with white space or a sign between its last counted comma and another
  comma, and no number before that which is out of range for a long (`CronField.SoundIff`).
- A repeated cron field matches the multiples of its step if and only if the step divides the cycle
  (`Cron.RegularIff`); two matches are never closer than the step either way.

Numbers are unbounded integers except where a width matters: the words of SHA-256 and CRC-32 are
bit-vectors of 64 bits, the counters of SHA-256 and of the blocklist wrap or saturate as coded, and
`LeaseTimers` models both widths of time_t.

## Model

| member | source | states |
|---|---|---|
| `Fips180.HashBlocksSnoc` | src/sup/sha256.c:218-223 | hashing one block more than a whole number of blocks is one more compression, so the order in which blocks arrive is the order of the message |
| `Fips180.PadZerosIsLeast` | src/sup/sha256.c:253-254 | the zero bytes of the padding are the least number that makes the length 56 modulo 64 |
| `Fips180.PadLength` | src/sup/sha256.c:253-257 | a padded message is a whole number of blocks |
| `Fips180.RoundConstants0AreCubeRoots` | src/sup/sha256.c:118-125 | the constants of rounds 0 to 7 are the first 32 fractional bits of the cube roots of the primes, which is what the standard defines them to be |
| `Fips180.RoundConstants1AreCubeRoots` | src/sup/sha256.c:126-133 | the constants of rounds 8 to 15 are the first 32 fractional bits of the cube roots of the primes, which is what the standard defines them to be |
| `Fips180.RoundConstants2AreCubeRoots` | src/sup/sha256.c:134-141 | the constants of rounds 16 to 23 are the first 32 fractional bits of the cube roots of the primes, which is what the standard defines them to be |
| `Fips180.RoundConstants3AreCubeRoots` | src/sup/sha256.c:142-149 | the constants of rounds 24 to 31 are the first 32 fractional bits of the cube roots of the primes, which is what the standard defines them to be |
| `Fips180.RoundConstants4AreCubeRoots` | src/sup/sha256.c:150-157 | the constants of rounds 32 to 39 are the first 32 fractional bits of the cube roots of the primes, which is what the standard defines them to be |
| `Fips180.RoundConstants5AreCubeRoots` | src/sup/sha256.c:158-165 | the constants of rounds 40 to 47 are the first 32 fractional bits of the cube roots of the primes, which is what the standard defines them to be |
| `Fips180.RoundConstants6AreCubeRoots` | src/sup/sha256.c:166-173 | the constants of rounds 48 to 55 are the first 32 fractional bits of the cube roots of the primes, which is what the standard defines them to be |
| `Fips180.RoundConstants7AreCubeRoots` | src/sup/sha256.c:174-181 | the constants of rounds 56 to 63 are the first 32 fractional bits of the cube roots of the primes, which is what the standard defines them to be |
| `Fips180.InitialHashIsSquareRoots` | src/sup/sha256.c:52-59 | the initial state is the first 32 fractional bits of the square roots of the first eight primes |
| `Fips180Vector.OneWord` | src/sup/sha256.c:96-100 | one word of the schedule of the message abc |
| `Fips180Vector.OneRound` | src/sup/sha256.c:102-107 | one round for that message |
| `Fips180Vector.Sha256OfAbc` | src/sup/sha256.c:280-293 | the known answer of the self test: the digest of abc, so the rotation amounts and the order of the words are those of the standard |
| `ShaContext.InitialState` | src/sup/sha256.c:47-60 | the initial state of the code is that of the standard |
| `ShaContext.LoPlus` | src/sup/sha256.c:102-107 | the low half of a 64-bit sum is the 32-bit sum of the low halves |
| `ShaContext.LoShr` | src/sup/sha256.c:84-84 | the masked shift of a wide word is the 32-bit shift of its low half, whatever the high half holds |
| `ShaContext.LoRotr` | src/sup/sha256.c:85-85 | the masked rotation of a wide word is the 32-bit rotation of its low half |
| `ShaContext.LoS0` | src/sup/sha256.c:87-87 | S0 is the small sigma 0 of the standard on low halves |
| `ShaContext.LoS1` | src/sup/sha256.c:88-88 | S1 is the small sigma 1 of the standard on low halves |
| `ShaContext.LoS2` | src/sup/sha256.c:90-90 | S2 is the big sigma 0 of the standard on low halves |
| `ShaContext.LoS3` | src/sup/sha256.c:91-91 | S3 is the big sigma 1 of the standard on low halves |
| `ShaContext.LoF0` | src/sup/sha256.c:93-93 | F0 is the majority function of the standard on low halves |
| `ShaContext.LoF1` | src/sup/sha256.c:94-94 | F1, a select written with two XORs, is the choice function of the standard on low halves |
| `ShaContext.LoGetUint32` | src/sup/sha256.c:31-37 | four big-endian bytes become the word of the standard |
| `ShaContext.LoPutUint32` | src/sup/sha256.c:39-45 | only the low half of a word is written out, most significant byte first |
| `ShaContext.LoadWords` | src/sup/sha256.c:67-82 | the sixteen loaded words are the first sixteen of the message schedule |
| `ShaContext.R` | src/sup/sha256.c:96-100 | a lazily computed schedule word agrees with the schedule of the standard modulo 2^32 |
| `ShaContext.P` | src/sup/sha256.c:102-107 | one unrolled round with its registers renamed takes round state t to round state t + 1 |
| `ShaContext.Rounds0To15` | src/sup/sha256.c:118-133 | rounds 0 to 15 with rotating register names |
| `ShaContext.Rounds16To31` | src/sup/sha256.c:134-149 | rounds 16 to 31, computing the schedule as they go |
| `ShaContext.Rounds32To47` | src/sup/sha256.c:150-165 | rounds 32 to 47 |
| `ShaContext.Rounds48To63` | src/sup/sha256.c:166-181 | rounds 48 to 63: after them the registers hold the state of the standard after 64 rounds |
| `ShaContext.Context.Process` | src/sup/sha256.c:62-191 | for every state and block, wide words with uncleared high halves included, the new state is the compression function of section 6.2.2 of FIPS 180-2 modulo 2^32 |
| `ShaContext.Context.Starts` | src/sup/sha256.c:47-60 | a started context is one that has absorbed the empty message |
| `ShaContext.CounterExactIff` | src/sup/sha256.c:202-206 | the split length counter counts exactly if and only if the low word plus the length is below 2^33 |
| `ShaContext.Context.ProcessBlocks` | src/sup/sha256.c:218-223 | whole blocks are hashed in order and fewer than 64 bytes remain |
| `ShaContext.Context.TopUp` | src/sup/sha256.c:208-216 | a part-filled buffer is completed and hashed only when the input suffices |
| `ShaContext.Context.Absorb` | src/sup/sha256.c:208-229 | bytes hashed plus bytes held in the buffer are the bytes given so far, none lost or doubled |
| `ShaContext.Context.Update` | src/sup/sha256.c:193-230 | after an update the context has absorbed the old message followed by the input |
| `ShaContext.LengthWords` | src/sup/sha256.c:246-251 | the eight length bytes are the bit length of the message in big-endian order |
| `ShaContext.PaddingIsPad` | src/sup/sha256.c:232-257 | the padding taken from the table and the length bytes give the padding of section 5.1.1 of FIPS 180-2 |
| `ShaContext.Context.AppendPadding` | src/sup/sha256.c:246-257 | feeding the padding and the length through update makes the context hold the padded message |
| `ShaContext.Context.PutState` | src/sup/sha256.c:259-266 | the digest is the big-endian form of the state of the standard |
| `ShaContext.Context.Finish` | src/sup/sha256.c:240-267 | the digest is SHA-256 of the message absorbed, for every message below 2^61 bytes |
| `Sup.GetSha` | src/sup/sup.c:111-154 | each byte of the file is hashed exactly once and the size is right, for sizes that are exact multiples of the buffer too; a file that does not open or fails to read is an error |
| `Sup.HashPieces` | src/sup/sha256.c:357-364 | for every way to cut a message into updates, the digest is SHA-256 of the whole message |
| `Crc32.TableIsEightSteps` | src/libdowse/hashmap.c:81-134 | each of the 256 table entries is eight shift and xor steps of its index |
| `Crc32.ShiftLinear` | src/libdowse/hashmap.c:67-77 | a step of the shift register is linear |
| `Crc32.EightStepsLinear` | src/libdowse/hashmap.c:67-77 | so are eight steps |
| `Crc32.TableStepIsEightSteps` | src/libdowse/hashmap.c:146-148 | one table lookup and shift in the wide word is eight steps of the register after the byte has been xored in |
| `Crc32.Crc` | src/libdowse/hashmap.c:138-151 | for every byte string the table loop equals the bit-at-a-time register with polynomial 0xEDB88320 and initial value 0, and the value stays below 2^32 |
| `HashTable.Probe` | src/libdowse/hashmap.c:194-204 | the slot chosen is free or has the key, and every slot before it in the chain is used by another key |
| `HashTable.CountUpdate` | src/libdowse/hashmap.c:266-270 | changing one slot changes the number of used slots by what that slot did |
| `HashTable.TightIsNotStale` | src/libdowse/hashmap.c:194-204 | without holes in the chains no put can be misled |
| `HashTable.StoreUpdates` | src/libdowse/hashmap.c:266-270 | storing at the slot chosen gives exactly the map with that key updated, unless an older copy lies behind a hole |
| `HashTable.StoreDuplicates` | src/libdowse/hashmap.c:266-270 | if one does, the key is in the table twice afterwards |
| `HashTable.StaleValueReturns` | src/libdowse/hashmap.c:384-387 | and removing the new copy brings the old map back, old value included |
| `HashTable.StaleIsReachable` | src/libdowse/hashmap.c:250-273 | two puts of colliding keys and one remove lead to such a table |
| `HashTable.FreeRemoves` | src/libdowse/hashmap.c:384-387 | freeing a slot removes exactly its key and hides no other |
| `HashTable.ProbeFinds` | src/libdowse/hashmap.c:290-302 | a key is in the map if and only if one of the eight slots probed has it |
| `HashTable.FoundInMap` | src/libdowse/hashmap.c:290-302 | in a table that is a map, the first slot with the key has its value |
| `HashTable.LastCopiesAre` | src/libdowse/hashmap.c:231-240 | putting the slots one after the other leaves each key with the data of its highest slot |
| `HashTable.CopiesOfMap` | src/libdowse/hashmap.c:231-240 | of a table that is a map that is the same map, and a part of it while the copying goes on |
| `HashTable.RehashRevives` | src/libdowse/hashmap.c:231-240 | after a stale put in front of the old copy, a rehash brings the old value back |
| `HashTable.StoreAnswers` | src/libdowse/hashmap.c:266-270 | storing at the slot chosen changes what gets answer exactly as a map would, whatever stale copies there are |
| `HashTable.FreeAnswers` | src/libdowse/hashmap.c:384-387 | freeing the slot of a key does so if and only if no second copy of it is found then |
| `HashTable.AnswersUnique` | src/libdowse/hashmap.c:278-308 | a table answers as at most one map |
| `HashModel.AgreesIff` | src/libdowse/hashmap.c:231-240 | the copies that a rehash keeps give the same map, after a put, if and only if for every other key they are the ones found first |
| `HashModel.SpentChain` | src/libdowse/hashmap.c:259-262 | allocations granted one after the other, and then one denied, add up |
| `HashModel.PutOn` | src/libdowse/hashmap.c:250-273 | put as a function of the table and of the answers of the allocator: it fails only when the allocation asked for last is denied, and succeeds only if all were granted |
| `HashModel.RoomOn` | src/libdowse/hashmap.c:257-264 | the same for its loop, which ends with a slot for the key |
| `HashModel.RehashOn` | src/libdowse/hashmap.c:210-245 | the same for rehash, which at least doubles the table |
| `HashModel.CopyOn` | src/libdowse/hashmap.c:231-240 | the same for its loop over the old slots, with nested rehashes |
| `HashModel.PutDoubles` | src/libdowse/hashmap.c:210-273 | the table of a put that succeeds, through all its nested rehashes, is doubled exactly once for each allocation |
| `HashModel.PutCounts` | src/libdowse/hashmap.c:266-270 | a put without a rehash counts one more even if the key was there |
| `Hashmap.New` | src/libdowse/hashmap.c:20-35 | two allocations, one after the other; a new map is empty and without holes; null exactly when one of them is denied |
| `Hashmap.Map.HashSlot` | src/libdowse/hashmap.c:180-205 | full when half the slots are counted, else the result of probing |
| `Hashmap.Map.Get` | src/libdowse/hashmap.c:278-308 | the value of the key, or missing exactly when the map does not have it, also in a table with stale copies as long as it answers as a map; in any other, the first copy in the chain |
| `Hashmap.Map.FindRoom` | src/libdowse/hashmap.c:257-264 | the retry loop computes the function of the table and the allocator; a table it did not replace is untouched, one it did is a map without holes |
| `Hashmap.Map.Put` | src/libdowse/hashmap.c:250-273 | the map with the key updated, unless the put meets a stale copy, and then there are two copies; what gets answer is the updated map if and only if no rehash was needed or the copies it keeps are those found first, but for this key; out of memory exactly when an allocation is denied, and then a part of the map remains, or all of it if nothing was copied; slots in use are at most the size and the size at most half the table |
| `Hashmap.Map.Rehash` | src/libdowse/hashmap.c:210-245 | through nested rehashes of half-filled tables the contents are the same; from any table the result is a map without holes in which each key has the data of its highest slot |
| `Hashmap.Replay` | src/libdowse/hashmap.c:250-399 | in every history of puts, gets and removes, under every sequence of allocator answers: each table is the one that these determine and is at most half full; each get answers as a map would, with puts that were denied left out, as long as no put was denied after copying began or rehashed a table in which an older copy of another key lies higher, and no remove left a second copy; a run in which no put is denied or meets a stale copy is of that kind, and without removes none meets one |
| `Hashmap.Apply` | src/libdowse/hashmap.c:250-399 | one operation: a table that answers as a map answers as the changed map afterwards if and only if the operation is of that kind, unless it is a put that is denied |
| `Hashmap.Map.Remove` | src/libdowse/hashmap.c:367-399 | exactly the one key is gone; with stale copies, what gets answer is the map without it if and only if no second copy is found; the size bounds are kept even in a table with duplicates |
| `Ranges.Reach` | src/pgld/blocklist.c:130-145 | the look-ahead stops before the first range that is neither overlapping nor adjacent |
| `Ranges.ReachCovers` | src/pgld/blocklist.c:130-145 | what it took in is covered by the widened range, and nothing else is |
| `Ranges.PassedIsKeptAndBlanks` | src/pgld/blocklist.c:146-173 | a pass leaves the merged ranges and one blank for each entry swallowed |
| `Ranges.KeptSeparated` | src/pgld/blocklist.c:114-186 | the ranges kept are sorted, disjoint and not adjacent |
| `Ranges.KeptSameCover` | src/pgld/blocklist.c:114-186 | they cover exactly the addresses of the list |
| `Ranges.KeptOfSeparated` | src/pgld/blocklist.c:179-185 | a pass over a separated list merges nothing |
| `Ranges.NothingMerged` | src/pgld/blocklist.c:179-185 | a pass that merged nothing left the list as it was |
| `Ranges.TotalIsAddresses` | src/pgld/blocklist.c:174-177 | for a separated list the sum of the sizes is the number of distinct addresses |
| `Ranges.TallyOfSeparated` | src/pgld/blocklist.c:174-177 | in the final pass the saturating counter does not wrap |
| `Merging.SeparatedIffShort` | src/pgld/blocklist.c:146-179 | a pass merges nothing if and only if the sorted list is already disjoint and not adjacent |
| `Merging.CutCovers` | src/pgld/blocklist.c:179-183 | whatever order the sort leaves equal starts in, the cut loses no address, a genuine range ending at 255.255.255.255 included |
| `Merging.CutGrows` | src/pgld/blocklist.c:179-183 | the cut gains no address below 255.255.255.255, and not that one either if the list is safe to merge |
| `Merging.CutIsKept` | src/pgld/blocklist.c:179-183 | if no entry starts at 255.255.255.255 and ends below it, the cut takes off exactly the blanks, so what is left is what the pass kept |
| `Merging.MergesGrow` | src/pgld/blocklist.c:114-186 | over every sort of every recursive call: the result is sorted, disjoint and not adjacent, loses no address, gains none but possibly 255.255.255.255, and gains nothing if the list is safe |
| `Merging.MergesToKept` | src/pgld/blocklist.c:114-186 | one of those results is what one pass keeps |
| `Merging.UnsafeSort` | src/pgld/blocklist.c:179-183 | for every list that is not safe there is a sort after which the cut keeps a blank and so blocks 255.255.255.255 |
| `Merging.MergeKeepsIff` | src/pgld/blocklist.c:114-186 | merging a sorted list keeps its addresses under every sort if and only if nothing merges, or no entry starts at 255.255.255.255 and ends below it, or 255.255.255.255 or 255.255.255.254 is covered |
| `Merging.UnsafeExample` | src/pgld/blocklist.c:179-183 | such a list, with its sort |
| `Merging.SortMergesGrow` | src/pgld/blocklist.c:110-186 | sorting and merging any list, reversed ranges included, loses no address, gains none but possibly 255.255.255.255, and gains nothing if the list is safe |
| `Merging.SortMergeKeepsIff` | src/pgld/blocklist.c:110-186 | sorting and merging keep the addresses under every sort if and only if the list is safe, a condition on the entries as they were loaded |
| `Blocklist.SortedByIs` | src/pgld/blocklist.c:110-112 | the sort is in order and a permutation of the entries |
| `Blocklist.List.Append` | src/pgld/blocklist.c:32-70 | one entry more at the end, the others kept through reallocation |
| `Blocklist.List.Clear` | src/pgld/blocklist.c:72-92 | the entries before the given position are kept and nothing else |
| `Blocklist.List.Sort` | src/pgld/blocklist.c:110-112 | the list is in order and its entries are a permutation of those before |
| `Blocklist.List.LookAhead` | src/pgld/blocklist.c:130-145 | the inner loop finds the merged range and where it ends |
| `Blocklist.List.Swallow` | src/pgld/blocklist.c:146-173 | the merged entry is widened, the swallowed ones are blank and the rest is untouched |
| `Blocklist.List.MergePass` | src/pgld/blocklist.c:122-178 | one pass over the array is one pass over the list of ranges, and counts as that does |
| `Blocklist.List.MergeAll` | src/pgld/blocklist.c:114-186 | the recursion gives one of the results that the sorts allow, with the count of its last pass; of well-formed ranges it is what one pass keeps, after at most two passes |
| `Blocklist.List.Merge` | src/pgld/blocklist.c:114-186 | for every sorted list: separated, no address lost, none gained but possibly 255.255.255.255 and not that one if the list is safe; of well-formed ranges, numips is the number of addresses up to 2^32 - 1 and the recursive call merges nothing |
| `Blocklist.CutOfWellFormed` | src/pgld/blocklist.c:179-185 | of well-formed ranges every sort leaves what the pass kept in front of the cut, and the next pass has nothing to do |
| `Blocklist.KeyOrder` | src/pgld/blocklist.c:102-108 | along a separated list the key comparison never rises and is zero at most once, exactly where the address lies: what bsearch needs |
| `Blocklist.List.Find` | src/pgld/blocklist.c:210-214 | on every separated list, reversed ranges included, the binary search finds an entry if and only if some range has the address, and the entry found has it |
| `Text.DecimalDigits` | src/pgld/blocklist.c:216-228 | a printed number reads back as itself |
| `Text.ScanDecimal` | src/pgld/parser.c:93-95 | scanning a printed number followed by something else gives the number and the rest |
| `ListFormat.FormatInts` | src/pgld/parser.c:75-97 | a scan format that matched in full has set all the numbers that the code then reads |
| `ListFormat.Ip2IntInverts` | src/pgld/parser.c:41-43 | ip2int inverts the split into four bytes |
| `ListFormat.ScanDotted` | src/pgld/pgld.c:83-86 | scanning a printed address gives its four bytes and goes on after it |
| `ListFormat.NotP2p` | src/pgld/parser.c:75-77 | the first format never claims a dumped line |
| `ListFormat.NotDat` | src/pgld/parser.c:82-85 | nor does the second |
| `ListFormat.IsRange` | src/pgld/parser.c:93-97 | the third reads it as the range dumped |
| `ListFormat.DumpLineLoads` | src/pgld/blocklist.c:216-228 | a dumped line loads as the range it came from |
| `ListFormat.StripPlain` | src/pgld/parser.c:31-39 | stripping the line end gives the line |
| `ListFormat.DumpLoads` | src/pgld/blocklist.c:216-228 | for every list, loading the dump gives the same ranges in the same order |
| `ListLines.P2pLineLoads` | src/pgld/parser.c:75-80 | every p2p line, with a label of 1 to 299 characters other than a colon and any tail that does not go on with a digit, loads as its range, first end first |
| `ListLines.P2pNeedsLabel` | src/pgld/parser.c:75-77 | a label that is empty or longer keeps the line from being a p2p line |
| `ListLines.DatScans` | src/pgld/parser.c:82-85 | for every layout of white space and dashes the second format reads the range and the level of an ipfilter.dat line, and claims it if and only if its name is not blank |
| `ListLines.DatLineLoads` | src/pgld/parser.c:82-91 | such a line loads as its range if its level is at most 127, and is skipped otherwise |
| `ListLines.CommentRejected` | src/pgld/parser.c:75-105 | an empty line, or one without a colon that does not begin as a number, loads nothing |
| `ListLines.WrittenLoads` | src/pgld/parser.c:65-105 | a file of any mixture of such lines, with either line end, loads exactly the ranges they are there to block, in order |
| `Pgld.LoadLine` | src/pgld/parser.c:65-105 | a line appends its range, or nothing |
| `Pgld.LoadAscii` | src/pgld/parser.c:45-115 | a file is a text list if and only if one of its first hundred lines gives a range; all its ranges are appended then, and none otherwise |
| `Pgld.LoadList` | src/pgld/parser.c:284-316 | a list that fails to load contributes nothing and the entries before it are intact; otherwise its ranges are appended |
| `Pgld.LoadFiles` | src/pgld/pgld.c:141-152 | the list holds the contributions of the files in order, whatever it held before; with no file named, standard input is read |
| `Pgld.KeptMeaning` | src/pgld/pgld.c:153-154 | for well-formed ranges the sizes of what is kept add up to the number of distinct addresses |
| `Pgld.LoadAllLists` | src/pgld/pgld.c:138-157 | for all files, reversed ranges included: the list is separated, covers every address of the lists that loaded and no other but possibly 255.255.255.255, and exactly those if they are safe to merge; numips counts well-formed ranges; the result tells if some file failed |
| `Pgld.NfqueueCb` | src/pgld/pgld.c:288-393 | drop if and only if the list covers the source for LOCAL_IN, the destination for LOCAL_OUT, either for FORWARD; then exactly one covering entry gains a hit, otherwise nothing changes |
| `Pgld.CoveredByContribution` | src/pgld/pgld.c:138-157 | an address is covered if and only if some list that loaded has a range with it |
| `Pgld.FilterPacket` | src/pgld/pgld.c:138-157 | end to end, for all files: a packet with a listed address is dropped; one without is dropped only if it has 255.255.255.255, and not even then if the lists are safe to merge |
| `Pgld.VerdictsRightIff` | src/pgld/pgld.c:138-157 | every packet gets the right verdict under every sort if and only if the ranges that loaded are safe to merge |
| `Pgld.DumpedFileLoads` | src/pgld/blocklist.c:216-228 | a dumped list used as a list file contributes the same ranges |
| `Pgld.WrittenFileLoads` | src/pgld/parser.c:45-115 | a list file of p2p, ipfilter.dat, bare and comment lines with a range to block among its first hundred contributes exactly the ranges they are there to block |
| `Pgld.WrittenLists` | src/pgld/pgld.c:138-157 | an address is listed by such a file if and only if one of its lines blocks it |
| `Pgld.LineDrops` | src/pgld/pgld.c:305-383 | a packet whose examined address is in the range of a line of such a file is listed, whatever other lists there are |
| `LeaseTimers.FromNowIs` | src/dhcp/client/dhclient.c:1360-1369 | adding the clock, with wrap-around and its guard, is the sum or TIME_MAX |
| `LeaseTimers.FromNowMonotone` | src/dhcp/client/dhclient.c:1360-1369 | so it keeps the order of two intervals |
| `LeaseTimers.OptionsAre` | src/dhcp/client/dhclient.c:1254-1307 | what an option value means: itself if TIME can hold it, else TIME_MAX as a lease time and not sent as a T2 |
| `LeaseTimers.RandomizedReaches` | src/dhcp/client/dhclient.c:1320-1323 | the draws reach exactly the times from three quarters of the base, with draw 0, to the base or one more, with the draw one below the base; a base too large for the product stays |
| `LeaseTimers.RenewalIsOk` | src/dhcp/client/dhclient.c:1296-1358 | without a T1 the renewal is three eighths to one half of the lease, with one three quarters to the whole of it, within rounding; only a draw past the rebinding time is capped, at three quarters of that |
| `LeaseTimers.Randomize` | src/dhcp/client/dhclient.c:1320-1323 | the random renewal time is at least three quarters of the base and at most one more; no product or sum overflows |
| `LeaseTimers.DefaultRebind` | src/dhcp/client/dhclient.c:1340-1347 | seven eighths of the lease within rounding, without overflow |
| `LeaseTimers.CapRenewal` | src/dhcp/client/dhclient.c:1349-1358 | three quarters of the rebinding time within rounding, without overflow |
| `LeaseTimers.Intervals` | src/dhcp/client/dhclient.c:1254-1358 | for every option value or absence and every draw: no intermediate result overflows, renewal is at most rebind, and rebind below expiry when the server sent no T2, then seven eighths of it; the renewal is that of RenewalIsOk |
| `LeaseTimers.IntervalsInOrder` | src/dhcp/client/dhclient.c:1254-1358 | the order of the three intervals, as functions of the options and the draw |
| `LeaseTimers.Dhcpack` | src/dhcp/client/dhclient.c:1254-1369 | the absolute times are those intervals with the clock added, the renewal as RenewalIsOk says, and keep their order unless the clock is near the end of a 64-bit time_t; a zero lease time is refused |
| `LeaseTimers.LateClockBreaksOrder` | src/dhcp/client/dhclient.c:1360-1369 | 90 seconds before that end, T1 = 1 and T2 = 91 leave the rebinding time before the renewal |
| `LeaseTimers.LateOptions` | src/dhcp/client/dhclient.c:1360-1369 | so do some options at every clock within 2^32 seconds of the end |
| `LeaseTimers.InOrderIff` | src/dhcp/client/dhclient.c:1254-1369 | for all options and draws dhcpack leaves the times in order if and only if the clock is not within 2^32 seconds of the end of a 64-bit time_t |
| `StatePanic.Client.ActivateNext` | src/dhcp/client/dhclient.c:2388-2398 | the active lease goes to the end of the list and the first becomes active |
| `StatePanic.Client.TryLeases` | src/dhcp/client/dhclient.c:2331-2407 | terminates; examines a prefix of the leases, each once; the leases are a rotation of those before; if it binds, the active lease is unexpired, works, is the first such, and is renewed when due or at once; if not, none is usable and the order is the original one |
| `StatePanic.Client.Panic` | src/dhcp/client/dhclient.c:2323-2431 | the same, and without a usable lease the client leaves if it was to try once, or returns to INIT and starts again after between a half and one and a half times the retry interval |
| `StatePanic.RotateFront` | src/dhcp/client/dhclient.c:2400-2406 | in a rotation the first lease comes back to the front only after a full turn, which is why the loop test ends it |
| `RedisLock.StepKeepsInv` | src/hiredis-lock.c:70-109 | each command of each process keeps the store equal to the key of the owner |
| `RedisLock.RunKeepsInv` | src/hiredis-lock.c:70-109 | so does every run of any number of processes in any interleaving |
| `RedisLock.OwnerAlwaysReleases` | src/hiredis-lock.c:94-105 | an owner that compares always matches and deletes its own lock only, although compare and delete are two commands |
| `RedisLock.ExpiryBreaksMutex` | src/hiredis-lock.c:79-80 | a time to live can give the lock two owners |
| `RedisLock.DoubleUnlockBreaksMutex` | src/hiredis-lock.c:92-105 | so can a second unlock with the same key |
| `RedisLock.AloneIsMutex` | src/hiredis-lock.c:70-109 | with one process, or no key ever drawn, there is nothing to exclude |
| `RedisLock.MutexIff` | src/hiredis-lock.c:70-109 | for every deployment, at most one process owns the lock in all interleavings if and only if there is no time to live and no stray unlock, or nobody to exclude; keys need not be unique |
| `CronField.RestLength` | src/seccrond/seccrond.c:352-356 | strtol is called for as many values as there are numbers up to and including the first that is no long: there are more than n if and only if there are more than n numbers and the first n of them are longs |
| `CronField.NumeralsCount` | src/seccrond/seccrond.c:341-356 | each comma of the counted text brings a number, and there are more numbers exactly if the text runs over: after its last counted comma comes a number with a sign or white space and then another comma |
| `CronField.SlotsFilled` | src/seccrond/seccrond.c:340-357 | for every list text the fill, once begun, stores more values than there are slots if and only if the text runs over before any range error; and a list that is accepted fills every slot |
| `CronField.SoundIff` | src/seccrond/seccrond.c:283-376 | for every text and all limits: every value goes to a counted slot and no unset field is walked or freed, if and only if the text is not an unset star and does not both run over before any range error and begin with a value within the limits |
| `CronField.OverrunExample` | src/seccrond/seccrond.c:340-357 | two slots and three values in `1,+2,3`, so with the limits of a minute its condition fails |
| `CronField.UnsetExample` | src/seccrond/seccrond.c:295-310 | `*5` sets no part of the field, whatever the limits |
| `CronField.OutOfLimitsIsDefined` | src/seccrond/seccrond.c:349-350 | a list whose first value is outside the limits keeps to its slots, whatever follows |
| `CronField.RangeErrorIsDefined` | src/seccrond/seccrond.c:352-356 | and so does one with a number for a counted slot that is no long |
| `CronField.CountSlots` | src/seccrond/seccrond.c:341-343 | the slots are counted as the reference does |
| `CronField.FillSlots` | src/seccrond/seccrond.c:352-356 | given room, the loop stores exactly the values up to the end of the list or the first range error, in order, and reports where it stopped and whether on a range error |
| `CronField.FieldOfWellFormed` | src/seccrond/seccrond.c:283-376 | an accepted field has its values in the limits, a nonzero step and at least two list values |
| `CronField.Buffer.ParseField` | src/seccrond/seccrond.c:283-376 | for every text and limits with which it keeps to its memory: the field that the text stands for is in the buffer, or a refusal, as the reference reading says; accepted fields are well formed; slots, stores and the walk are those counted by `SoundIff` |
| `CronField.Buffer.TakeList` | src/seccrond/seccrond.c:340-361 | the list case: slots as counted, a first value outside the limits ends it, and it is accepted exactly when the whole text was read without a range error |
| `CronField.Buffer.Walk` | src/seccrond/seccrond.c:366-368 | the closing walk leaves the kind of a field if and only if all its values are within the limits |
| `CronField.JoinReads` | src/seccrond/seccrond.c:340-361 | a written list of numbers reads back as those numbers |
| `CronField.RenderReads` | src/seccrond/seccrond.c:283-376 | every well-formed field written as text parses back to itself |
| `Cron.MatchList` | src/seccrond/seccrond.c:265-271 | the list loop finds a value if and only if it is there, and reads no further |
| `Cron.FormsAgree` | src/seccrond/seccrond.c:243-274 | all forms of a field in terms of lists: a range is the list of its values, a number the range from it to itself, a star the whole cycle, a step the multiples of it, and a list matches what its parts do |
| `Cron.MatchEntry` | src/seccrond/seccrond.c:226-280 | an entry matches if and only if all six fields match |
| `Cron.DaysInMonIs` | src/seccrond/seccrond.c:205-223 | the days of the months of the Gregorian calendar, leap years included |
| `Cron.RepeatSpacing` | src/seccrond/seccrond.c:256-264 | two ticks matched by a step of v are never less than v apart, over cycles of any length, the wrap included |
| `Cron.RepeatIsRegular` | src/seccrond/seccrond.c:256-264 | if the step divides the cycle the matches are the multiples of the step |
| `Cron.RegularIff` | src/seccrond/seccrond.c:256-264 | they are so if and only if it divides it |
| `Cron.ReapedIs` | src/seccrond/seccrond.c:181-191 | the first job with the pid is taken out, the others keep their order |
| `Cron.JobTable.RunJob` | src/seccrond/seccrond.c:131-167 | a command that is in the table is not started again; otherwise one entry is added; commands stay distinct |
| `Cron.JobTable.WaitJob` | src/seccrond/seccrond.c:170-202 | all finished children are taken out; commands stay distinct |
| `Cron.RunDaemon` | src/seccrond/seccrond.c:532-613 | in every run each table follows from the one before and has distinct commands |
| `Retransmission.Elapsed` | src/dhcp/client/dhc6.c:1639-1645 | the borrow in the subtraction of times is right |
| `Retransmission.Plus` | src/dhcp/client/dhc6.c:339-345 | so is the carry in the addition of a timeout |
| `Retransmission.Rand` | src/dhcp/client/dhc6.c:257-296 | a draw is within a tenth of the base either way, as Offset says |
| `Retransmission.SplitIsLargest` | src/dhcp/client/dhc6.c:272-277 | the split is the largest number of which ten stay below the base |
| `Retransmission.OffsetCycles` | src/dhcp/client/dhc6.c:283-293 | the draws run through the band from its lower end one by one and start over after its upper end |
| `Retransmission.OffsetReaches` | src/dhcp/client/dhc6.c:283-293 | so every number of the band is drawn |
| `Retransmission.FirstRtReaches` | src/dhcp/client/dhc6.c:1472-1484 | the first timeouts that some draw gives are exactly those within the split of IRT; for a Solicit, those above IRT within it |
| `Retransmission.UnclampedReaches` | src/dhcp/client/dhc6.c:353-370 | the timeouts that can follow RT are exactly those within its split of twice RT that are at most MRT, and, if one of those is above, those within the split of MRT |
| `Retransmission.Client.RetransInit` | src/dhcp/client/dhc6.c:300-323 | the first timeout is within a tenth of IRT and positive |
| `Retransmission.Client.SolicitInit` | src/dhcp/client/dhc6.c:1472-1484 | for a solicitation it is strictly greater than IRT |
| `Retransmission.Client.CheckTiming` | src/dhcp/client/dhc6.c:1621-1651 | a send is refused once the count exceeds MRC or the elapsed time reaches MRD |
| `Retransmission.Unclamped` | src/dhcp/client/dhc6.c:353-370 | RT doubles within a tenth, and so grows, while that is at most MRT; once it would pass MRT it is within a tenth of MRT and stays there |
| `Retransmission.Client.RetransAdvance` | src/dhcp/client/dhc6.c:327-402 | the arithmetic on seconds, microseconds and hundredths, with its carries, amounts to one formula on the microseconds elapsed and the draws |
| `Retransmission.AdvancedIs` | src/dhcp/client/dhc6.c:372-400 | a timeout that stays clear of MRD doubles; one that would reach it ends with MRD to within ten milliseconds |
| `Retransmission.PacedSpread` | src/dhcp/client/dhc6.c:327-402 | sends are at least a hundredth of a second apart on average |
| `Retransmission.ReadyAgain` | src/dhcp/client/dhc6.c:2164-2215 | each round of the exchange keeps its invariant |
| `Retransmission.SendNext` | src/dhcp/client/dhc6.c:2164-2215 | one round: send, advance, wait until the timer fires or later |
| `Retransmission.SendAll` | src/dhcp/client/dhc6.c:2164-2215 | the firings of the timer, up to n sends or the end of the exchange |
| `Retransmission.Exchange` | src/dhcp/client/dhc6.c:2164-2215 | for every number n of sends to look at, with any MRC and MRD, also when both are zero: each send follows the one before by its timeout and the delay of the timer, and its own timeout is the advance of that one with the next two draws; nothing is sent once MRD is reached; there are at most MRC + 1 sends if MRC is set and at most 100 MRD if MRD is, and with more than that to look at the exchange has given up, but never before one of them is used up; the random function never gets a base below 1; and RT doubles until it stays within a tenth of MRT |
| `LeaseOrder.BeatsTotal` | src/dhcp/client/dhc6.c:3377-3402 | preference, score and lowest server id decide between any two servers |
| `LeaseOrder.BeatsTransitive` | src/dhcp/client/dhc6.c:3377-3402 | and are transitive |
| `LeaseOrder.BeatsMeans` | src/dhcp/client/dhc6.c:3377-3402 | the higher preference wins, then the higher score, then the shorter identifier, then the lower at the first byte in which they differ |
| `LeaseOrder.OptionAdds` | src/dhcp/client/dhc6.c:1414-1437 | an option that is not required adds one to the score for each time that it is requested, so nothing if it is not |
| `LeaseOrder.AddressAdds` | src/dhcp/client/dhc6.c:1442-1444 | an address more in a binding adds as much as a hundred options |
| `LeaseOrder.BindingAdds` | src/dhcp/client/dhc6.c:1439-1440 | an empty binding more adds as much as a hundred addresses |
| `LeaseOrder.NothingOffered` | src/dhcp/client/dhc6.c:1412-1426 | a lease that offers nothing is worth one with all that is required, and nothing without |
| `LeaseOrder.RicherBeats` | src/dhcp/client/dhc6.c:1404-1448 | of two leases of the same preference and bindings, the one with strictly more of what was requested, and all that is required, has the higher score and beats the other |
| `LeaseOrder.RicherIsPicked` | src/dhcp/client/dhc6.c:3327-3413 | so no lease is picked while a richer one is on offer, in every list whose choice does not depend on the order |
| `LeaseOrder.PickDominant` | src/dhcp/client/dhc6.c:3335-3407 | a lease that dominates the list is picked, whatever the order of the list |
| `LeaseOrder.UnmatchedDependsOnOrder` | src/dhcp/client/dhc6.c:3335-3407 | if some leases reach the minimum score and one that does not has a preference above all of those, two orders of the list pick differently |
| `LeaseOrder.OrderFreeIff` | src/dhcp/client/dhc6.c:3335-3407 | the choice is independent of the order if and only if there is no such lease |
| `LeaseOrder.AllStrongPicksBest` | src/dhcp/client/dhc6.c:3335-3407 | if all score at least the minimum, the one picked is the unique maximum |
| `LeaseSelection.CheckAdvertise` | src/dhcp/client/dhc6.c:2562-2619 | an advertisement is accepted if and only if it has a usable binding of the kinds wanted |
| `LeaseSelection.StatusCounts` | src/dhcp/client/dhc6.c:2562-2619 | a success code is as good as none, for the lease and for each binding, and nothing else is |
| `LeaseSelection.EnoughOfEach` | src/dhcp/client/dhc6.c:2605-2616 | when all must be there, as many associations of each kind are needed as were asked for |
| `LeaseSelection.AcceptableIsStrong` | src/dhcp/client/dhc6.c:1404-1448 | an acceptable lease with all required options scores above the minimum |
| `LeaseSelection.AcceptedChoice` | src/dhcp/client/dhc6.c:3327-3413 | so among such leases the choice is the unique best and independent of the order |
| `LeaseSelection.AcceptedOrderFreeIff` | src/dhcp/client/dhc6.c:3327-3413 | for the leases that the client lets in, the choice is independent of the order if and only if no lease that lacks a required option is preferred to every lease that has them all |
| `LeaseSelection.AcceptedDependsOnOrder` | src/dhcp/client/dhc6.c:3327-3413 | two leases that the client lets in and between which the order decides |
| `LeaseSelection.Client.InsertLease` | src/dhcp/client/dhc6.c:1351-1367 | a lease replaces the one of the same server or goes last; server ids stay distinct |
| `LeaseSelection.Client.ScoreLease` | src/dhcp/client/dhc6.c:1404-1448 | the cached score is the score |
| `LeaseSelection.Client.ComputeScore` | src/dhcp/client/dhc6.c:1404-1448 | the loops compute the score whose worth OptionAdds, AddressAdds, BindingAdds and NothingOffered state |
| `LeaseSelection.Client.Prefer` | src/dhcp/client/dhc6.c:3377-3402 | the comparison in the loop is the selection rule, the minimum score included |
| `LeaseSelection.Client.BestLease` | src/dhcp/client/dhc6.c:3327-3413 | removes and returns the lease that the selection rule picks from the list, and keeps the rest; if the choice does not depend on the order, there is no richer lease of the same preference and bindings |
| `LeaseSelection.Client.Receive` | src/dhcp/client/dhc6.c:3104-3136 | only acceptable leases enter the list |
| `Bindings.FindIa` | src/dhcp/client/dhc6.c:4568-4580 | the first association with the type and identifier |
| `Bindings.FindAddr` | src/dhcp/client/dhc6.c:4584-4613 | the first address, or the first prefix with the same length |
| `LeaseMerge.AddMissingExtends` | src/dhcp/client/dhc6.c:4671-4697 | only unknown addresses are added, in front, and all of them are known afterwards |
| `LeaseMerge.AddMissingKeys` | src/dhcp/client/dhc6.c:4671-4697 | the addresses of an association are the union of both |
| `LeaseMerge.MergeKeys` | src/dhcp/client/dhc6.c:4644-4699 | the keys of the merged lease are exactly the union of the keys of both, repeated associations included |
| `LeaseMerge.MergeRetains` | src/dhcp/client/dhc6.c:4644-4699 | every association of the newer lease keeps its place, its own data and its own addresses |
| `LeaseMerge.MergeBrings` | src/dhcp/client/dhc6.c:4647-4669 | behind them come exactly the associations that only the older lease has, in order, with their own data and addresses |
| `LeaseMerge.ExtraIs` | src/dhcp/client/dhc6.c:4644-4647 | those are the ones the newer lease lacks, each where it first occurs |
| `LeaseMerge.MergeAddresses` | src/dhcp/client/dhc6.c:4671-4697 | every address of the merged lease, with its data, comes from the newer lease or from an association of the older one of the same name |
| `LeaseMerge.KeepsLookup` | src/dhcp/client/dhc6.c:4584-4613 | where both leases have a key, a lookup finds the data of the newer one |
| `LeaseMerge.MergeIdempotent` | src/dhcp/client/dhc6.c:4635-4704 | a second merge changes nothing |
| `LeaseMerge.MergeAddrs` | src/dhcp/client/dhc6.c:4671-4697 | the inner loop adds what is missing and reports whether it added anything |
| `LeaseMerge.MergeOne` | src/dhcp/client/dhc6.c:4644-4699 | one turn of the outer loop |
| `LeaseMerge.MergeLease` | src/dhcp/client/dhc6.c:4635-4704 | the newer lease becomes the merge, retaining its own associations and gaining those it lacked as MergeRetains and MergeBrings say; the older one is unchanged, and the score is forgotten exactly when something was added; a null lease changes nothing |
| `LeaseExpiry.EndsHas` | src/dhcp/client/dhc6.c:4387-4403 | the list of ends has exactly the ends of the bindings that have not expired |
| `LeaseExpiry.ScanAddrs` | src/dhcp/client/dhc6.c:4372-4404 | the inner loop finds the first and last end and the first loss of preference of an association |
| `LeaseExpiry.ScanIas` | src/dhcp/client/dhc6.c:4369-4469 | the pass finds those of the lease, and the smallest renewal and rebinding periods with the latest start |
| `LeaseExpiry.OpenIsOrdered` | src/dhcp/client/dhc6.c:4407-4456 | an association whose server left both times open renews no later than it rebinds |
| `LeaseExpiry.OpenTimesAre` | src/dhcp/client/dhc6.c:4407-4456 | times left open: it renews after half and rebinds after three quarters, within rounding, of the first end, or of the last if the first comes within half of that; of the configured lease time if that is never or at most a second |
| `LeaseExpiry.GivenTimesAre` | src/dhcp/client/dhc6.c:4436-4456 | times that the server gives count as they are, 0xffffffff as never |
| `LeaseExpiry.RenewTimeIs` | src/dhcp/client/dhc6.c:4431-4496 | for the lease as a whole, the smallest period after the latest start, temporary addresses aside |
| `LeaseExpiry.LastEndIs` | src/dhcp/client/dhc6.c:4462-4468 | the time until which rebinding goes on is the last end: no live binding ends after it |
| `LeaseExpiry.Client.PacedMeans` | src/dhcp/client/dhc6.c:4498-4546 | renewing lasts until rebinding starts and rebinding until the last end; a client whose rebinding time is over, or not after its renewal, goes there directly |
| `LeaseExpiry.RenewBeforeRebind` | src/dhcp/client/dhc6.c:4407-4496 | if each association does so, the lease as a whole does |
| `LeaseExpiry.Client.CheckTimes` | src/dhcp/client/dhc6.c:4349-4564 | without a live binding the lease is dropped and the client starts over; otherwise the expiry and preference timers are at exactly the earliest end and the earliest loss of preference, or off if there is none |
| `LeaseExpiry.DepreffedSofts` | src/dhcp/client/dhc6.c:5116-5147 | losing preference keeps exactly the times still to come and changes no end |
| `LeaseExpiry.DepreffedAre` | src/dhcp/client/dhc6.c:5116-5147 | nothing but the flags changes, and a flag is set exactly if it was or the preferred time is over |
| `LeaseExpiry.Client.DoDepref` | src/dhcp/client/dhc6.c:5103-5150 | bindings past their preferred time are flagged, nothing else in the bindings changes, and the timers are set anew |
| `LeaseExpiry.SurvivorsEnds` | src/dhcp/client/dhc6.c:5171-5228 | after expiry at a given time the ends left are exactly those later than it |
| `LeaseExpiry.SurvivorsAlive` | src/dhcp/client/dhc6.c:5213-5226 | every association left has a binding that has not expired |
| `LeaseExpiry.ExpireAddrsFlags` | src/dhcp/client/dhc6.c:5173-5181 | every address is as it was but for its flag, which is set exactly if it was or the address has ended |
| `LeaseExpiry.SurvivorsAre` | src/dhcp/client/dhc6.c:5171-5228 | the associations left are exactly those with a live binding, in order, unchanged but for the flags of their addresses |
| `LeaseExpiry.LiveIasAre` | src/dhcp/client/dhc6.c:5213-5226 | those are the positions at which some binding has neither expired nor ended |
| `LeaseExpiry.SurvivorsTwice` | src/dhcp/client/dhc6.c:5171-5228 | expiring now and again later is expiring later |
| `LeaseExpiry.Client.DoExpire` | src/dhcp/client/dhc6.c:5156-5244 | exactly the associations with a live binding are left, unchanged but for the flags; every binding not flagged ends later, every association left has one, the next expiry is at the earliest end left; with none left the lease is dropped and the client starts over |
| `LeaseExpiry.FireNext` | src/dhcp/client/dhc6.c:4557-4563 | a firing of the expiry timer deals with at least one end and leaves those after it |
| `LeaseExpiry.AllExpire` | src/dhcp/client/dhc6.c:4557-4563 | when the timer is off for good, each end below 0x7fffffff was dealt with by the first firing at or after it |
| `LeaseExpiry.RunExpiry` | src/dhcp/client/dhc6.c:5156-5244 | let the expiry timer run, however late it fires: each firing is set for the earliest end left; each end below 0x7fffffff is dealt with by the first firing at or after it, and no later than that firing is late; a lease remains if and only if some binding ends at or after 0x7fffffff, which the code takes for never; what is left is what one expiry at the last firing leaves |

## Left out

- ShaContext.Context.Update: for one update longer than 2^32 bytes it asks that the length counter stays exact, because beyond that the code counts wrongly; `ShaContext.CounterExactIff` says exactly when.
- ShaContext.Context.Finish: messages of 2^61 bytes or more, which the standard excludes too.
- Sup.GetSha: the 32-bit return type on platforms where unsigned long has 32 bits; the size is the true one on 64-bit platforms.
- CronField.Buffer.ParseField: texts with which the code writes outside its allocation or walks and frees a field that it never set; `CronField.SoundIff` says exactly which those are.
- CronField.Buffer.ParseField: a long is taken to have 64 bits; the closing walk may read slots that were counted but not filled, which only happens once the text is refused; that the buffer is freed.
- Blocklist.List.Merge: the hit counters of entries, which are all zero when lists are merged.
- Blocklist.List.Merge: numips and the number of passes for ranges whose end is below their start.
- ListFormat.ParseLine: numbers too large for an int, for which sscanf is undefined.
- Pgld.LoadAscii: iconv and the failure to open it; line length limits of the stream reader.
- Retransmission.Exchange: changes of the duration limit by `dhc6_check_times` while an exchange runs.
- LeaseMerge.MergeLease: merging a lease into itself, which no caller does; running out of memory ends the process.
- LeaseExpiry.Client.DoExpire: clocks at or beyond 0x7fffffff seconds, which the code takes for "never", and a 32-bit time_t, where the sums of starts and lifetimes could wrap.
- LeaseExpiry.RunExpiry: renewals that replace the lease while its timers run, and delays so long that the clock reaches 0x7fffffff.
- LeaseTimers.Dhcpack: a clock before 1970.
- StatePanic.Client.Panic: a retry interval of zero, by which the code divides, and the microseconds of the timers.
- Hashmap.Replay: what gets answer, as a map, once a second copy has come to light; they answer with the first copy in the chain, and the next rehash decides for the highest.
- The mixing steps of `hashmap_hash_int`: the map is proved for every function of the key instead.
- The binary p2b format: what a binary list appends, and whether it ends without an error, is an input.
- Names and labels of ranges, iconv, zlib, statistics and logging of pgld.
- Linked lists are sequences, so updates in place through pointers to pointers, aliasing and freeing are not modelled; the words of the SHA-256 state are a sequence in a field.
- Option evaluation, packet encoding, scripts, DNS updates and the DHCP timer queue; a timer is assumed not to fire early.
- Allocation failures, except in the hash map, where each allocation may be denied.
- The calendar meaning of the month field of seccrond: limits are 1 to 12 but the comparison is with 0 to 11; the comparison is modelled as coded.
- Sockets, the netfilter queue, the redis transport, fork and exec: inputs or abstract steps.
- The web interface, the MQTT, OSC and gource forwarders, and the DHCP configuration language: mostly input and output.
