# beego-cache adapters in Dafny

This project models the storage adapters of beego-cache, the Go cache
library behind beego. The four adapters are the file cache, SSDB, memcache
and redis. The model also covers the `incr`/`decr` counter arithmetic that
the file adapter's Incr and Decr use.

- The file cache is a class. Its settings are fields, and the files under
  its directory are a map from file name to stored item. Get, GetMulti, Put,
  Delete, Incr, Decr, IsExist and ClearAll read and update that map.
  File names follow the MD5 and directory-level layout of
  `getCacheFileName`.
- The SSDB adapter is modelled as the commands it sends and what it makes
  of the replies. The server is a function from command to reply. GetMulti
  pairs the keys and values of a `multi_get` answer. Put picks `set` or
  `setx` and checks the reply. IsExist reads the `exists` reply. ClearAll
  scans, deletes and scans again, and is proved equal to a recursive
  description of that loop.
- The memcache adapter is modelled as its use of the client's answers:
  Get, IsExist, GetMulti, and the item Put builds. The 32-bit expiration
  cast is written out.
- The redis adapter is a class holding the collection name and the SCAN
  count. Keys are associated as `name:key`. Scan follows cursors until
  cursor 0 or an error. ClearAll deletes what the scan found.
- The counter arithmetic follows the six integer kinds of Go, including the
  platform word size for `int` and `uint`. It refuses to wrap around.

Time is a parameter `now`, in nanoseconds. Every reply from a server is a
parameter: a function from command to reply for SSDB, a list of SCAN
replies and a DEL answer for redis, and the client's result for memcache.

## Model

| member | source | states |
|---|---|---|
| Counter.Incr | calc_utils_test.go:19-75 | succeeds exactly for an integer value below its kind's maximum, with the same kind and n+1; a non-integer gives NotIntegerType, a value at the maximum gives IncrementOverflow |
| Counter.Decr | calc_utils_test.go:85-141 | succeeds exactly for an integer value above its kind's minimum, with the same kind and n-1; a non-integer gives NotIntegerType, a value at the minimum gives DecrementOverflow |
| Counter.StepsStayRepresentable | calc_utils_test.go:19-141 | a successful step keeps the value inside its Go type |
| Counter.IncrThenDecr | cache_test.go:169-178 | decrementing after a successful increment gives back the original value and kind |
| Counter.DecrThenIncr | cache_test.go:169-178 | incrementing after a successful decrement gives back the original value and kind |
| Counter.IncrFromOne | calc_utils_test.go:19-66 | 1 becomes 2 in each of int, int32, int64, uint, uint32 and uint64 |
| Counter.IncrAtMaximum | calc_utils_test.go:23-69 | the maximum of each kind (2^(w-1)-1 or 2^w-1, w the platform word size for int and uint) overflows |
| Counter.DecrFromTwo | calc_utils_test.go:85-132 | 2 becomes 1 in each of the six kinds |
| Counter.DecrAtMinimum | calc_utils_test.go:89-135 | the minimum of each kind (-2^(w-1), or 0 for the unsigned kinds) underflows |
| Counter.NonIntegersRefused | calc_utils_test.go:72-74 | a string, a byte slice or any other non-integer is refused by incr and by decr with NotIntegerType |
| GoInt.Seconds | ssdb/ssdb.go:111 | whole seconds of a duration, truncated toward zero for both signs |
| GoInt.ToInt32 | memcache/memcache.go:99 | the int32 conversion: in range, congruent modulo 2^32, the identity on values already in range |
| GoStrings.JoinMentions | ssdb/ssdb.go:90 | the joined text contains each part |
| GoStrings.EncodeRune | memcache/memcache.go:103 | UTF-8 of one character: one byte exactly below 0x80, two below 0x800, three below 0x10000, else four; the lead byte is the character itself, or 110xxxxx, 1110xxxx, 11110xxx by length; the others are 10xxxxxx; the payload bits read back to the character |
| GoStrings.Utf8 | memcache/memcache.go:103 | `[]byte(str)` has at least one and at most four bytes per character |
| GoStrings.Utf8Ascii | memcache/memcache.go:103 | an ASCII string converts byte for byte |
| MultiGet.Segment | ssdb/ssdb.go:83 | the per-key segment mentions the key and the error text |
| MultiGet.Message | file.go:198-201 | `strings.Join(keysErr, "; ")`: empty for no segment, the segment itself for one, the first segment and "; " ahead of the rest for more; every segment occurs in the message |
| MultiGet.MessageMentionsKey | ssdb/ssdb.go:89-91 | the joined message mentions the key of each of its segments |
| MultiGet.MissingSegments | memcache/memcache.go:82-94 | no segment exactly when every key is present; at most one segment per key |
| MultiGet.MissingKeyHasSegment | ssdb/ssdb.go:81-85 | every missing key has its "key not exist" segment |
| MultiGet.MissingMessageMentionsKeys | ssdb/ssdb.go:81-91 | the aggregate error names every missing key |
| FileStore.ApplyOptionsLast | file.go:61-87 | the options act in order, so a later option overrides an earlier one |
| FileStore.PathJoinOne | file.go:156 | joining one part gives that part |
| FileStore.PathJoinAppend | file.go:140-156 | joining one more non-empty part adds a separator, unless nothing came before |
| FileStore.FileCache.FileName | file.go:133-157 | getCacheFileName: the key's file is the directory made from CachePath and the key's digest, joined with digest+suffix |
| FileStore.FileNameLayout | file.go:133-157 | level 2 gives CachePath/h[0:2]/h[2:4]/h+suffix, level 1 gives CachePath/h[0:2]/h+suffix, any other level gives CachePath/h+suffix |
| FileStore.ShippedSettings | file.go:44-49 | under the shipped settings a key's file is `cache/` + two digit pairs as directories + digest + `.bin`, and a zero timeout keeps an item ten years |
| FileStore.FileInCacheDir | file.go:137-156 | the file name is the directory `getCacheFileName` creates, joined with h+suffix |
| FileStore.DistinctDigestsDistinctFiles | file.go:133-157 | keys with different digests are kept in different files |
| FileStore.ReadItem | file.go:161-181 | Ok with the stored data exactly for a present, unexpired file; KeyExpired exactly for a present, expired one; a missing file is a read failure naming the file |
| FileStore.ExpiryFor | file.go:211-215 | the forever rule: a timeout equal to EmbedExpiry gives ten years from now, any other timeout that long from now; the expiry lies after now exactly when the timeout equals EmbedExpiry or is positive |
| FileStore.PutThenRead | file.go:207-227 | an item just written reads back as its value until its expiry, and as KeyExpired after it |
| FileStore.ForeverPut | file.go:211-212 | a Put whose timeout equals EmbedExpiry is readable for ten years |
| FileStore.UpdateCounter | file.go:247-274 | read, step and write back: success exactly for a readable value that can be stepped, which is then rewritten with the same kind, n±1 and a ten-year expiry; every failure leaves the files unchanged and passes Get's or the counter's error on |
| FileStore.IncrThenDecrRestores | cache_test.go:169-178 | Incr and then Decr, within ten years, restore the stored value |
| FileStore.FileCache.constructor | file.go:91-94 | NewFileCache: every setting at its zero value |
| FileStore.FileCache.V2 | file.go:98-116 | NewFileCacheV2: the package-level settings, then the options in order |
| FileStore.FileCache.Apply | file.go:61-87 | each option sets one setting and nothing else |
| FileStore.FileCache.Get | file.go:161-181 | Ok with the stored data exactly when the key's file exists and has not expired; KeyExpired exactly when it exists and has expired; a missing file is a read failure naming it |
| FileStore.FileCache.FailureSegments | file.go:189-196 | no segment exactly when every key's Get succeeds |
| FileStore.FileCache.FailingKeyHasSegment | file.go:190-193 | every failing key has a segment with its error text |
| FileStore.FileCache.FailureMessageMentionsKeys | file.go:198-201 | the aggregate error names every key whose Get fails |
| FileStore.FileCache.OutcomeOf | file.go:189-196 | the i-th outcome is Get of the i-th key |
| FileStore.FileCache.GetMulti | file.go:185-202 | one slot per key, holding Get's value or nil; no error exactly when every Get succeeds; otherwise MultiGetFailed with the joined segments of the failing keys |
| FileStore.FileCache.Put | file.go:207-227 | the key's file now holds the value, last accessed now, expiring ten years on when the timeout equals EmbedExpiry and after the timeout otherwise; no other file changes |
| FileStore.FileCache.Delete | file.go:230-243 | the key's file is removed if present, nothing else changes, and there is no error |
| FileStore.FileCache.Incr | file.go:247-259 | the files and the error are those of UpdateCounter stepping up |
| FileStore.FileCache.Decr | file.go:262-274 | the files and the error are those of UpdateCounter stepping down |
| FileStore.FileCache.IsExist | file.go:277-283 | true: Get succeeds or reports KeyExpired at every time; false: Get reports the missing file at every time |
| FileStore.FileCache.IsExistIgnoresExpiry | file.go:277-283 | IsExist is true exactly when Get succeeds or reports KeyExpired |
| FileStore.FileCache.ClearAll | file.go:286-288 | never fails |
| Ssdb.Cache.constructor | ssdb/ssdb.go:45-53 | the last conninfo option decides |
| Ssdb.Cache.Apply | ssdb/ssdb.go:38-42 | sets conninfo |
| Ssdb.PairsEnd | ssdb/ssdb.go:76 | the pairing loop stops at the first odd index at or past the length |
| Ssdb.KeyIndexUpToHas | ssdb/ssdb.go:76-78 | a key is indexed exactly when it is the key of some pair |
| Ssdb.KeyIndexUpToLast | ssdb/ssdb.go:76-78 | the index kept for a key is that of its last pair |
| Ssdb.KeyIndexSpec | ssdb/ssdb.go:74-78 | both facts for the whole response |
| Ssdb.PairedIndexInRange | ssdb/ssdb.go:86 | reading the value after a requested key's index stays inside the response |
| Ssdb.PairedValueSpec | ssdb/ssdb.go:81-87 | a slot is filled exactly when its key is the key of some pair, and then with that pair's value |
| Ssdb.LastPairingWins | ssdb/ssdb.go:76-86 | a key in several pairs gets the value of its last pair |
| Ssdb.IndexKeys | ssdb/ssdb.go:74-78 | the loop builds the key index of the response |
| Ssdb.FillSlots | ssdb/ssdb.go:80-87 | each slot holds its paired value; the segments are those of the keys missing from the index |
| Ssdb.GetMulti | ssdb/ssdb.go:65-94 | a transport failure leaves every slot empty and gives SsdbCacheCurdFailed; otherwise each slot holds its paired value, and there is no error exactly when every key is indexed, else MultiGetFailed with the missing keys' segments |
| Ssdb.TtlSeconds | ssdb/ssdb.go:111 | `int(timeout / time.Second)`: the truncated seconds on a 64-bit platform; on a 32-bit one their low 32 bits, equal to them when they fit |
| Ssdb.PutCommand | ssdb/ssdb.go:111-116 | `set` exactly when the platform's second count is negative, otherwise `setx` with it; on a 64-bit platform `set` is exactly a timeout of at most -1s |
| Ssdb.PutReplyError | ssdb/ssdb.go:117-123 | no error exactly for the reply ["ok", x]; a failure is SsdbCacheCurdFailed, any other reply is SsdbBadResponse carrying it |
| Ssdb.Put | ssdb/ssdb.go:104-124 | a non-string value is InvalidSsdbCacheValue; a string succeeds exactly when the server answers ["ok", x]; a failed call is SsdbCacheCurdFailed with its cause, any other reply SsdbBadResponse carrying it |
| Ssdb.NonStringSendsNothing | ssdb/ssdb.go:105-108 | for a non-string value the outcome does not depend on the server |
| Ssdb.LongTimeoutUsesSetx | ssdb/ssdb.go:111-116 | s seconds and a fraction are sent as `setx` with s, when s fits the platform's int |
| Ssdb.WrappedTimeoutOn32Bit | ssdb/ssdb.go:111-113 | on a 32-bit platform a timeout of 2^31 seconds wraps negative and is stored with `set`, without expiry |
| Ssdb.ShortNegativeTimeoutUsesSetx | ssdb/ssdb.go:111-116 | a negative timeout shorter than a second truncates to 0 and is still sent with `setx` |
| Ssdb.IsExist | ssdb/ssdb.go:145-154 | true exactly for the reply [status, "1"]; a failure is (false, SsdbCacheCurdFailed), any reply is no error |
| Ssdb.OddElements | ssdb/ssdb.go:166-169 | half the length, element k being element 2k+1 |
| Ssdb.PageKeys | ssdb/ssdb.go:166-169 | the loop collects the keys at the odd indices of a page |
| Ssdb.Drain | ssdb/ssdb.go:159-177 | the commands sent start with the scan after the start key |
| Ssdb.DrainDeletes | ssdb/ssdb.go:166-175 | a page that is not only the status has its keys deleted; a failed delete ends the loop, a successful one needs a page of at least two elements and moves on to the scan after the page's last key |
| Ssdb.DrainStopsAtDelete | ssdb/ssdb.go:170-173 | a failed delete ends ClearAll with SsdbCacheCurdFailed |
| Ssdb.EmptyPageDeletesNothing | ssdb/ssdb.go:165-173 | a page with no element has an empty key list deleted; that delete fails and ClearAll ends with its error after the scan and the delete |
| Ssdb.DrainFollowsProtocol | ssdb/ssdb.go:158-178 | the commands alternate: a scan of 50 with no upper bound, a delete of exactly that page's keys, the scan from the page's last key, and so on |
| Ssdb.DrainOutcome | ssdb/ssdb.go:158-178 | success exactly when the last command is a scan answered by a page holding only the status; otherwise the last command failed and its cause is the error |
| Ssdb.PendingStops | ssdb/ssdb.go:163-173 | a status-only page, or a failed delete, ends the loop with the commands sent so far |
| Ssdb.PendingNext | ssdb/ssdb.go:174-175 | after a successful delete the loop waits on the scan from the page's last key |
| Ssdb.Turn | ssdb/ssdb.go:162-175 | one turn of the loop keeps the loop's state or ends it with ClearAll's outcome |
| Ssdb.ClearAll | ssdb/ssdb.go:158-178 | the outcome and the commands sent are those of the recursive description Drain |
| Ssdb.FailedFirstScan | ssdb/ssdb.go:160-177 | a first scan that fails ends ClearAll with that error after one command |
| MemCache.Cache.constructor | memcache/memcache.go:49-57 | the last conninfo option decides |
| MemCache.Cache.Apply | memcache/memcache.go:37-41 | sets conninfo |
| MemCache.Get | memcache/memcache.go:60-68 | the item's bytes on success, else MemCacheCurdFailed with the client's error |
| MemCache.IsExist | memcache/memcache.go:133-136 | true exactly when Get has no error, and the error is Get's |
| MemCache.GetMulti | memcache/memcache.go:71-95 | a client failure leaves every slot empty and gives MemCacheCurdFailed; otherwise each slot holds its item's bytes or nil, and there is no error exactly when every key was returned, else MultiGetFailed with the missing keys' segments |
| MemCache.Put | memcache/memcache.go:98-107 | only bytes and strings are accepted (a string as its UTF-8); the item carries the key and the int32 of the whole seconds; any other value is InvalidMemCacheValue |
| MemCache.WholeSecondsExpiration | memcache/memcache.go:99 | up to 2^31-1 seconds the expiration is the exact second count |
| Redis.ApplyOptionsLast | redis/redis.go:41-53 | the options act in order |
| Redis.LastKeyOptionWins | redis/redis.go:48-53 | from any settings, the last CacheWithKey decides the collection name and leaves the scan count alone |
| Redis.Collect | redis/redis.go:128-145 | the first call uses the start cursor; no more calls than replies |
| Redis.CollectStep | redis/redis.go:136-143 | a page with a non-zero cursor contributes its keys first, then the scan from that cursor |
| Redis.CollectFollowsCursors | redis/redis.go:135-144 | each call after the first passes on the previous reply's cursor |
| Redis.CollectStops | redis/redis.go:135-144 | the loop stops at the first error or cursor 0; the result is that error or all keys of the pages read |
| Redis.TwoPageScan | redis/redis_test.go:470-481 | a page pointing to cursor 2 and a final page give both pages' keys in order, from the calls with cursors 0 and 2 |
| Redis.Cache.constructor | redis/redis.go:56-67 | the current value of DefaultKey (shipped as "beecacheRedis") and 1024, then the options in order |
| Redis.Cache.Apply | redis/redis.go:41-53 | an option sets its setting |
| Redis.Cache.Associate | redis/redis.go:70-72 | the collection name, a colon, then the key |
| Redis.Cache.AssociateInjective | redis/redis.go:70-72 | different keys are stored under different names |
| Redis.Cache.AssociatedKeysMatchCollection | redis/redis.go:70-72 | ClearAll's pattern `name:*` covers every stored name |
| Redis.Cache.GetMulti | redis/redis.go:80-86 | the MGET arguments are the associated names of the keys, in order |
| Redis.Cache.Scan | redis/redis.go:128-145 | the result and the calls are those of Collect from cursor 0 |
| Redis.Cache.ClearAll | redis/redis.go:116-125 | scans `name:*`; a scan error is returned at once; nothing is deleted when nothing was found; otherwise every key found is deleted and DEL's error is the result |

## Left out

- Filesystem I/O. The files are a map. `Init` and the directory creation in
  `getCacheFileName` are not modelled, so that function's MkdirAll and
  permission errors are not either; the directory it creates is
  `CacheDir`.
- `filepath.Clean`: PathJoin equals `filepath.Join` when the separator is
  "/" (not `\` as on Windows), no name has "." or ".." elements or repeated
  separators, and neither CachePath nor FileSuffix ends in a separator.
  Otherwise they may differ: for `"cache/"` PathJoin keeps the doubled
  separator that Go removes, and a FileSuffix of ".bin/" keeps its trailing
  separator.
- The gob encoding of items and its errors, and the MD5 sum itself. The
  digest function is a parameter of the cache.
- NewFileCacheV2 reads the package settings and converts
  `FileCacheEmbedExpiry` to seconds through float formatting and Atoi.
  That conversion is not modelled: the package settings are a parameter,
  and DefaultConfig holds the shipped ones.
- The wording of error messages. The text `err.Error()` gives for an error
  is a parameter of the file cache.
- FileStore.FileCache.Put: `now + timeout` is computed without the overflow
  clamping of `time.Time.Add`. The item is stored as a value rather than as
  gob bytes, and the later `gob.Register` is not modelled.
- FileStore.FileCache.Put: the embed-expiry comparison takes EmbedExpiry
  (whole seconds) as a raw nanosecond duration, as the code does.
- FileStore.FileCache.IsExistIgnoresExpiry: the interface comment in
  cache.go:37-39 says an expired key reports false. The file adapter's code
  only checks that the file exists, and the model follows the code.
- The in-memory store, its sweep, locking, the random-expiry decorator and
  the other adapters are not part of this model.
- The `incr`/`decr` source file is not part of this model. Counter is
  written to the behaviour its tests fix.
- The network clients. For SSDB, each command's reply is one fixed
  function of the command during a call, so sending the same command twice
  gives the same reply.
- The SSDB and memcache Get, Delete, Incr, Decr, DelMulti and memcache
  ClearAll are single client calls whose error is wrapped. Their results
  depend on the client and are not modelled, except memcache Get, which
  IsExist uses.
- Ssdb.GetMulti: an even-length `multi_get` reply whose last element is a
  requested key would index past the end and panic. Ssdb.Pairable excludes
  that reply in the requires clause.
- Ssdb.ClearAll: on a scan page with no element at all the source deletes
  an empty key list. If that delete fails, it returns the delete's error,
  and the model does the same. If it succeeds, it indexes `resp[-2]` and
  panics; ScanEnds excludes that case. ScanEnds also bounds the number of
  pages by a ghost fuel, so a server that never ends the scan is not
  modelled.
- Redis.Cache.Scan: a server that never returns cursor 0 is not modelled.
  ScanEnds requires one final reply.
- Redis.Cache.GetMulti: states only the MGET arguments. The answer is the
  client's result and is passed through unmodelled.
- The redis Get, Delete, Incr and Decr pass only the associated name to
  the client and return its result. Put also passes the value and the
  timeout. IsExist returns whether the client's count is non-zero, with the
  client's error. Associate is modelled, but the client calls of these six
  operations are not.
- Redis.Cache.AssociatedKeysMatchCollection: treats `name:*` as a prefix
  match, so it assumes the collection name holds no glob metacharacters.
- Contexts and their cancellation.
- Go strings are byte strings, but a Dafny string holds only Unicode
  characters. MemCache.Put therefore takes its string values to be valid
  UTF-8, and `[]byte(str)` is their UTF-8 encoding. Byte strings that are
  not valid UTF-8 are not modelled.
- `time.Duration` is 64 bits wide. Timeouts are unbounded integers, taken
  to lie in that range.
- The package variable redis `DefaultKey` can be reassigned. NewRedisCache
  reads it, so its current value is a parameter of the constructor.
