# FileMemCache in Dafny

A model of `FileMemCache`, a two-tier memoising cache for Python functions:

- **Primary tier.** A Redis server holds each result as a pickled string together with a time-to-live. Every result's key is also added to a set named by the call's signature. Once that set grows to `limit` members, arbitrary members are popped and deleted.
- **File tier.** A directory tree backs the primary tier. It holds one checksummed pickle file per key and one text record per function definition.
- **Keys.** A call's key is `namespace:func:hash:token`:
  - `hash` is the SHA-512 of the function name and its arguments, sorted by name, with `dateDt` taken out;
  - `token` is `dateDt` formatted as `YYYYMMDD_HHMM`, or `0` when there is no `dateDt` or it cannot be formatted.
- **Reads.** `get` reads the primary tier first. On a miss it falls back to the file and promotes the file's value into the primary tier. Otherwise it reports a plain miss or an expired key.
- **Invalidation.** `clear` deletes by function, parameter text, hash and date range, in either tier or in both.

The model is split into modules:

| module | file | contents |
|---|---|---|
| `Python` | `python.dfy` | Python objects, the fault kinds (one per exception the cache raises), `Result`/`Option`, and a `Runtime` of foreign calls |
| `Strings` | `strings.dfy` | Python's string comparison, `split`/`join`, `rsplit(':', 1)[0]`, `in`, `replace` |
| `Patterns` | `patterns.dfy` | the `*` glob shared by Redis `KEYS`, `glob.glob` and the `re.match` uses; the `\d{8}_\d{4}` date token |
| `KeyCodec` | `keycodec.dfy` | key derivation of `get_hash` and `get_set_name` |
| `Primary` | `primary.dfy` | class `Redis`: a value map and a set map, and the commands the cache issues |
| `FileTier` | `filetier.dfy` | class `Disk`: a file map and a directory set; paths, checksummed pickles, `makedirs`, key paths of `key_to_file` |
| `Invalidation` | `invalidation.dfy` | the bounds, patterns and filters of `clear`, `clear_memory` and `clear_files` as functions of the state |
| `Engine` | `engine.dfy` | class `FileMemCache` with `store`, `get`, `get_hash`, `clear*`, `cache_it`; loop methods each proved against the function that specifies it |

The foreign calls are fields of `Runtime` and get no definition, so every property holds whatever they compute. These are SHA-512 and MD5 hex digests, `str`, `repr` and `strftime('%Y%m%d_%H%M')`. A `strftime` that raises is modelled as `None`.

Pickling is the identity. An argument of `None` for `func`, `param_str` or `hash_str` is modelled as `""`, since the code only tests their truthiness.

## Model

| member | source | states |
|---|---|---|
| KeyCodec.SortByName | filememcache/fileMemCache.py:383 | the arguments sorted by name are a permutation of the bound arguments |
| KeyCodec.InsertKeepsLowerBound | filememcache/fileMemCache.py:383 | a name below the inserted one and below all of the list stays below all of the result |
| KeyCodec.SortByNameSorted | filememcache/fileMemCache.py:383 | the sorted arguments are in ascending name order |
| KeyCodec.SortByNameCanonical | filememcache/fileMemCache.py:383 | any two orderings of the same distinct-named arguments sort to the same sequence |
| KeyCodec.PopDate | filememcache/fileMemCache.py:384-388 | popping `dateDt` only removes arguments |
| KeyCodec.PopDateOfSorted | filememcache/fileMemCache.py:384-388 | when `dateDt` is bound, the token is its formatting (or `0`) and the rest is the other arguments, still sorted |
| KeyCodec.PartitionToken | filememcache/fileMemCache.py:384-388 | the token is `0` without a `dateDt` argument and the formatted `dateDt` otherwise |
| KeyCodec.DeriveIgnoresArgumentOrder | filememcache/fileMemCache.py:383-394 | the key, signature and definition record do not depend on the order the arguments are bound in |
| KeyCodec.SignatureIgnoresDate | filememcache/fileMemCache.py:385-394 | changing only `dateDt` keeps the signature and definition and changes only the token |
| KeyCodec.SetNameOfDerivedKey | filememcache/fileMemCache.py:175-176 | `get_set_name` of the cache key and of the funcDef key is the signature `ns:func:hash` |
| KeyCodec.DerivedKeyFields | filememcache/fileMemCache.py:413 | a derived key splits at `:` into exactly namespace, function, hash and token |
| KeyCodec.IndexOfName | filememcache/fileMemCache.py:385 | the index found holds the name; none is found only when no argument has it |
| Strings.SplitJoin | filememcache/fileMemCache.py:217 | splitting a join of `:`-free fields gives the fields back |
| Strings.JoinSplit | filememcache/fileMemCache.py:217 | joining a split string gives the string back |
| Strings.BeforeLastSeparator | filememcache/fileMemCache.py:175-176 | `rsplit(':', 1)[0]` of `a:b` with `:`-free `b` is `a` |
| Strings.SplitFirstOfListing | filememcache/fileMemCache.py:434 | `m.split(' | ')[0]` of a listing line is the set name |
| Strings.RemoveAllSuffix | filememcache/fileMemCache.py:555 | `replace('.pkl', '')` of `<token>.pkl` is the token |
| Strings.LessTotal | filememcache/fileMemCache.py:476 | Python's string order is total on distinct strings |
| Strings.LessTransitive | filememcache/fileMemCache.py:476 | Python's string order is transitive |
| Patterns.GlobLiteral | filememcache/fileMemCache.py:396 | a pattern without `*` matches exactly itself |
| Patterns.GlobPrefixStar | filememcache/fileMemCache.py:462-463 | `p*` matches exactly the strings starting with `p` |
| Patterns.GlobLiteralTail | filememcache/fileMemCache.py:449 | a pattern ending in a literal matches only strings ending in it |
| Patterns.DateSuffix | filememcache/fileMemCache.py:473-474 | the one `\d{8}_\d{4}$` match when there is one; none only when no suffix has that shape |
| Primary.AddMember | filememcache/fileMemCache.py:203 | `sadd` adds the member to that set only |
| Primary.RemoveMember | filememcache/fileMemCache.py:288 | `srem` removes the member from that set only, dropping a set left empty |
| Primary.AfterEviction | filememcache/fileMemCache.py:190-192 | the set loses the popped members, and keys deleted as sets disappear; no empty set appears |
| Primary.KeysMatching | filememcache/fileMemCache.py:466 | `KEYS` finds exactly the existing keys of either kind that the glob matches |
| Primary.KeysOfLiteral | filememcache/fileMemCache.py:396 | `keys(funcDefKey)` is non-empty exactly when that key exists |
| Primary.Redis.Get | filememcache/fileMemCache.py:273 | `GET` yields the stored blob exactly when the key holds a value |
| Primary.Redis.Set | filememcache/fileMemCache.py:199-201 | `SET`/`SETEX` binds the key and changes no set |
| Primary.Redis.SAdd | filememcache/fileMemCache.py:203 | the sets become `AddMember` of the old sets |
| Primary.Redis.SRem | filememcache/fileMemCache.py:288 | the sets become `RemoveMember` of the old sets |
| Primary.Redis.SPop | filememcache/fileMemCache.py:191 | pops some member, or nothing exactly when the set is empty |
| Primary.Redis.Delete | filememcache/fileMemCache.py:192 | `DEL` removes the keys of both kinds |
| FileTier.Seal | filememcache/fileMemCache.py:232-233 | the written record holds the data with the checksum of `str(data)` |
| FileTier.Unseal | filememcache/fileMemCache.py:254-265 | intact exactly when the checksum agrees; corrupt exactly when it does not; text is no pickle |
| FileTier.UnsealSeal | filememcache/fileMemCache.py:227-265 | reading what `atomicwrite` stored gives the value back |
| FileTier.Entries | filememcache/fileMemCache.py:569 | `os.listdir(d)` is exactly the files and directories directly under `d` |
| FileTier.MadeDirs | filememcache/fileMemCache.py:302-304 | `makedirs` only adds `d` and its ancestors |
| FileTier.MadeDirsWellFormed | filememcache/fileMemCache.py:302-304 | succeeds exactly when `d` exists or no ancestor is a file; keeps the tree well formed |
| FileTier.Disk.MakeDirs | filememcache/fileMemCache.py:302-304 | the directories become `MadeDirs` of the old tree; failure changes nothing |
| FileTier.Disk.Put | filememcache/fileMemCache.py:240-244 | a write succeeds exactly in an existing directory, not onto a directory |
| FileTier.Disk.Remove | filememcache/fileMemCache.py:559 | `os.remove` removes the file, reporting whether it was there |
| FileTier.Disk.RemoveEmptyDir | filememcache/fileMemCache.py:570 | `rmtree` of an empty directory removes only it |
| FileTier.KeyPath | filememcache/fileMemCache.py:217-220 | the unpacking succeeds exactly when the key has 4 fields |
| FileTier.KeyLocation | filememcache/fileMemCache.py:215-225 | malformed key exactly when not 4 fields; otherwise the pickle path and the tree after `makedirs` |
| FileTier.KeyPathOfDerivedKey | filememcache/fileMemCache.py:217-223 | a derived key goes to `<root>/<ns>/P<hash>/<token>.pkl` |
| FileTier.KeyFileFields | filememcache/fileMemCache.py:217-223 | two keys share a file only when namespace, hash and token agree |
| FileTier.KeyFileIgnoresFunction | filememcache/fileMemCache.py:217-221 | keys differing only in function name share a file |
| FileTier.DefinitionRecordFile | filememcache/fileMemCache.py:405-407 | the definition record lies in the namespace's `funcDefDir` |
| FileTier.JoinRelativeMoves | filememcache/fileMemCache.py:557 | `os.path.join` of a non-empty directory and a relative path is not that path |
| Invalidation.BoundText | filememcache/fileMemCache.py:588-602 | an absent bound is `""`, a string is itself, a date object its formatting; fails only when formatting fails |
| Invalidation.ClearBounds | filememcache/fileMemCache.py:585-602 | an end date without a start date is rejected; otherwise each bound is formatted by its own type |
| Invalidation.ClearBoundsAgreeOnSameType | filememcache/fileMemCache.py:596-600 | when both bounds have the same type, the code as written and the corrected bounds agree |
| Invalidation.TextStartObjectEnd | filememcache/fileMemCache.py:597-600 | as written, a string start with a date-object end passes the object on unformatted |
| Invalidation.ObjectStartTextEnd | filememcache/fileMemCache.py:597-598 | as written, a date-object start with a string end fails |
| Invalidation.PointwiseLessEq | filememcache/fileMemCache.py:476 | strings of equal length, pointwise no greater, compare no greater |
| Invalidation.SearchPattern | filememcache/fileMemCache.py:436-449 | there is no pattern exactly when namespace, func and hash are all empty; a pattern starts with the namespace |
| Invalidation.PatternStaysInNamespace | filememcache/fileMemCache.py:436-444 | every key the pattern matches starts with the namespace |
| Invalidation.WholeNamespacePattern | filememcache/fileMemCache.py:436-444 | without filters the pattern is `ns*`, matching exactly the keys that start with `ns` |
| Invalidation.StartOnlyPatternEndsInLiteral | filememcache/fileMemCache.py:446-449 | with only a start date, only keys ending in the literal `start_str` match |
| Invalidation.MemoryListing | filememcache/fileMemCache.py:335-341 | each namespace set with a funcDef record is listed as `set | record` |
| Invalidation.ParamFilteredSelectsSet | filememcache/fileMemCache.py:430-434 | a listed set whose record contains the parameter text is selected |
| Invalidation.KeysUnderAny | filememcache/fileMemCache.py:461-463 | exactly the existing keys that start with one of the prefixes |
| Invalidation.KeysUnderAnyGrow | filememcache/fileMemCache.py:461-463 | one more prefix adds exactly the `KEYS p*` result |
| Invalidation.InDateRangeExactly | filememcache/fileMemCache.py:470-477 | a key is kept exactly when its last 13 characters are a date token within the bounds |
| Invalidation.MemoryTargets | filememcache/fileMemCache.py:425-479 | the keys `clear_memory` deletes are existing keys; fails exactly on an empty pattern |
| Invalidation.MemoryTargetsInNamespace | filememcache/fileMemCache.py:436-466 | without a parameter filter every deleted key lies in the namespace |
| Invalidation.MemoryTargetsDateRange | filememcache/fileMemCache.py:470-486 | with both bounds, the deleted keys are exactly the matched keys whose date token lies within them |
| Invalidation.FileBounds | filememcache/fileMemCache.py:513-520 | the file bounds are never empty; a given bound is kept; a start alone is also the end |
| Invalidation.NoBoundsCoverEveryToken | filememcache/fileMemCache.py:513-520 | with no bounds every date token is within `['0', '99999999_9999']` |
| Invalidation.StartOnlyIsExact | filememcache/fileMemCache.py:513-517 | with a start alone, only that exact token is within the bounds |
| Invalidation.PklDateOfTokenFile | filememcache/fileMemCache.py:555 | the date read off `<token>.pkl` is the token |
| Invalidation.ExtractFuncName | filememcache/fileMemCache.py:543 | without `re.DOTALL` the extracted function name lies within one line: it holds no newline |
| Invalidation.FirstLineMatch | filememcache/fileMemCache.py:543 | the match is taken from the first line that holds a `{` with a `}` after it on that line, and is that line up to its last such `{`; none exactly when no line has one |
| Invalidation.ExtractFuncNameNone | filememcache/fileMemCache.py:543 | `findall` is empty, so `[0]` raises, exactly when no line of the record holds a `{` with a `}` after it on that line |
| Invalidation.ExtractFuncNameOfDefinition | filememcache/fileMemCache.py:543 | a one-line record `func{...}`, with no `{` in the name or the items, extracts `func` |
| Invalidation.ExtractFuncNameSplitItems | filememcache/fileMemCache.py:543 | a record whose `{` and `}` fall on different lines (`"f{'x': a\nb}"`) has no match, so `[0]` raises |
| Invalidation.ExtractFuncNameFirstLine | filememcache/fileMemCache.py:543 | only the first matching line is read: `"f{a}\n{b}"` extracts `f` |
| Invalidation.OpenBrace | filememcache/fileMemCache.py:543 | the split point found is a `{` |
| Invalidation.TextAt | filememcache/fileMemCache.py:539-541 | reading a definition record succeeds exactly on a text file and gives its text |
| Invalidation.DirVerdict | filememcache/fileMemCache.py:538-552 | a directory is cleared only when the hash filter passes; it fails only under a function filter |
| Invalidation.DatedFiles | filememcache/fileMemCache.py:554-556 | the selected pickles are files of that directory |
| Invalidation.GlobValueDirs | filememcache/fileMemCache.py:530 | the `P*` directories are children of the cache directory, other than `funcDefDir` |
| Invalidation.ParamDirs | filememcache/fileMemCache.py:526-528 | the parameter-selected directories are such children too |
| Invalidation.FileTargets | filememcache/fileMemCache.py:502-530 | the directories `clear_files` visits; only the listing under a parameter filter can fail |
| Invalidation.DeletionPathMissesRelativeRoot | filememcache/fileMemCache.py:557 | as written, under a relative root the removal path is not the listed file |
| Invalidation.DeletionAsWrittenFindsNoFile | filememcache/fileMemCache.py:554-564 | under a relative root, in a well-formed tree without the doubled directory `fileDir/fileDir`, the path removed as written is no file, so `os.remove` raises the swallowed `FileNotFoundError` and nothing is removed or counted |
| Invalidation.DeletionPathAbsoluteRoot | filememcache/fileMemCache.py:557 | as written, under an absolute root the removal path is the listed file |
| Engine.EffectiveExpiry | filememcache/fileMemCache.py:195-201 | `None` falls back to the default; an int `<= 0` (or no default) stores without expiry, otherwise with that positive TTL |
| Engine.RecordDefinitionKeepsExisting | filememcache/fileMemCache.py:396-402 | an existing funcDef record is left exactly as it is |
| Engine.RecordDefinitionIdempotent | filememcache/fileMemCache.py:396-402 | recording the same call a second time changes nothing |
| Engine.RecordDefinitionRecords | filememcache/fileMemCache.py:396-402 | afterwards the record exists; a new one holds the definition and is in `ns:funcDef` |
| Engine.EvictionStep | filememcache/fileMemCache.py:190-192 | one pop-and-delete extends the evicted set by one member and shrinks the set by one |
| Engine.SelectByParam | filememcache/fileMemCache.py:432-434 | the loop yields exactly `ParamFiltered` of the listing |
| Engine.MatchPrefixes | filememcache/fileMemCache.py:455-459 | the loop yields exactly the prefixes the pattern matches |
| Engine.FilterDateRange | filememcache/fileMemCache.py:470-477 | the loop keeps exactly `InDateRange` of the keys |
| Engine.RemoveIfDated | filememcache/fileMemCache.py:555-564 | a pickle is removed exactly when it exists and its date is in range; nothing else changes |
| Engine.RemoveDatedFiles | filememcache/fileMemCache.py:554-567 | the loop removes exactly the selected pickles, counts them, and leaves the directories |
| Engine.FileMemCache.constructor | filememcache/fileMemCache.py:130-160 | the file tier is off when asked or without a directory; the memory tier is off when asked or unreachable |
| Engine.FileMemCache.Contains | filememcache/fileMemCache.py:171-172 | `key in cache` exactly when the key is a member of its set |
| Engine.FileMemCache.Evict | filememcache/fileMemCache.py:190-192 | pops until the set holds fewer than `limit`, deleting each popped key; with `limit <= 0` it empties the set and fails |
| Engine.FileMemCache.Store | filememcache/fileMemCache.py:178-204 | with `limit >= 1` the key holds the blob with the chosen expiry and is in its set; the set holds at most `limit`; only evicted keys are lost |
| Engine.FileMemCache.StoreKey | filememcache/fileMemCache.py:207-208 | `store` of the pickled value |
| Engine.FileMemCache.KeyToFile | filememcache/fileMemCache.py:215-225 | gives the pickle path, directory and name of `KeyLocation`, having made the directory, or its fault |
| Engine.FileMemCache.AtomicWrite | filememcache/fileMemCache.py:227-250 | the file holds the sealed value when the directory exists; otherwise nothing changes |
| Engine.FileMemCache.AtomicRead | filememcache/fileMemCache.py:252-265 | an intact file gives its data; a corrupt one gives `None` and is removed; a missing one or text fails |
| Engine.FileMemCache.StoreKeyFile | filememcache/fileMemCache.py:210-213 | the key's file holds the sealed value after its directory is made, or the key's fault with nothing changed |
| Engine.FileMemCache.GetHit | filememcache/fileMemCache.py:290-297 | a primary hit returns the value and rewrites the file only if it already exists |
| Engine.FileMemCache.Promote | filememcache/fileMemCache.py:278-283 | the file's value (`None` when corrupt) is stored in the primary tier and returned |
| Engine.FileMemCache.Get | filememcache/fileMemCache.py:269-297 | every outcome: empty key, hit, file promotion, miss (values, sets and files unchanged; the key's directories are made), expired key removed from its set, errors |
| Engine.FileMemCache.GetHash | filememcache/fileMemCache.py:379-415 | returns the derived key; records the definition in Redis and on disk only where absent |
| Engine.FileMemCache.KeysUnder | filememcache/fileMemCache.py:461-463 | the loop's accumulation is exactly the keys under any prefix |
| Engine.FileMemCache.MemoryKeys | filememcache/fileMemCache.py:425-479 | the keys selected are exactly `MemoryTargets` of the current primary tier, or its empty-pattern error |
| Engine.FileMemCache.ClearMemory | filememcache/fileMemCache.py:417-493 | exactly `MemoryTargets` is deleted from both maps; other keys are untouched |
| Engine.FileMemCache.ClearDir | filememcache/fileMemCache.py:533-571 | one directory is skipped, or its selected pickles are removed and counted, and it is pruned with its record once empty |
| Engine.FileMemCache.ClearStep | filememcache/fileMemCache.py:533-571 | one pass of the directory loop extends the swept and pruned sets by that directory's share |
| Engine.FileMemCache.ClearDirs | filememcache/fileMemCache.py:532-575 | the directory loop succeeds exactly when every directory does, removing and counting exactly the selected pickles |
| Engine.FileMemCache.ClearFiles | filememcache/fileMemCache.py:495-575 | the tree after `clear_files` is `FilesCleared`: the selected pickles, the emptied directories and their records gone |
| Engine.FileMemCache.Clear | filememcache/fileMemCache.py:577-610 | rejects bad bounds with nothing changed; clears memory, then files; a failure of the first stops the second |
| Engine.FileMemCache.Fill | filememcache/fileMemCache.py:652-666 | `FillOutcome`: a `DoNotCache` result is returned with both tiers unchanged; a computed result is stored as `store_key` stores it (only evicted keys lost), then written to the key's file, changing only that file and the directories made for it; it is returned exactly when neither step fails, and the failing step's fault is returned otherwise |
| Engine.FileMemCache.FillStores | filememcache/fileMemCache.py:660-664 | after a successful fill the primary tier holds the pickle with its expiry, the key is in its set, and the key's file holds the sealed value |
| Engine.FileMemCache.CacheIt | filememcache/fileMemCache.py:627-666 | no connection runs the function; otherwise the steps are chained through the intermediate tiers: `HashOutcome` of `get_hash`, then `GetOutcome` of `get` on the derived key; a hit returns the value found with nothing further changed; another `get` failure is the unknown error; a miss or expired key gives `FillOutcome` |
| Engine.FileMemCache.GetOutcomeHit | filememcache/fileMemCache.py:290-297 | a key the primary tier holds as a pickle is found with that value, and the primary tier is unchanged |

## Left out

- The connection to Redis (`RedisConnect`, `ping`, `ConnectionError`) is a parameter. The constructor takes a server or `null`, and the network is not modelled.
- Redis time-to-live expiry is not modelled. A key that expired is simply absent from the value map in the state a command finds.
- The Redis pipeline is modelled as one atomic update. Concurrent clients are not modelled.
- `SPOP` chooses an arbitrary member, with no randomness.
- Redis type errors (`WRONGTYPE`) are not modelled. Values and sets are two maps, and `GET` of a set reads as a missing value. Real `SET` replaces a key of any type, but `Primary.Redis.Set` leaves a set held at the same key in place, so the two maps may hold one key at once. The cache never reaches that state: it sets only cache keys and definition keys, which have four `:`-separated fields when the namespace and the function name are free of `:`, while the sets it adds to are named by three fields (`ns:func:hash`) or are `ns:funcDef`.
- Engine.EffectiveExpiry: `expire` is modelled as an int or `None`. A non-int expire (a float or a `timedelta`) fails the `isinstance(expire, int)` test at line 198 and always goes to `setex`, even when it is zero or negative, where Redis rejects the call after eviction has run. That case is not modelled.
- Patterns.DateSuffix: reads `\d` as the ASCII digits `0`-`9` and `$` as the end of the key. Python's `re` on `str` also takes other Unicode decimal digits for `\d`, and lets `$` match before a trailing newline (line 473). The tokens `strftime('%Y%m%d_%H%M')` writes are ASCII and have no newline, so the keys `get_hash` derives are unaffected.
- Glob and regex matching treat only `*` as special. This covers Redis `KEYS`, `glob.glob` and `re.match(... .replace('*', '.*'))`. Other metacharacters in namespaces, function names or parameter text are taken literally.
- Path components are atomic names, and nothing is normalised. `os.path.join` follows its absolute/relative rule.
- Engine.FileMemCache.AtomicWrite: does not model the `.tmp` file, and treats `shutil.move` onto a directory as a failed write (the real call moves the file into it).
- Engine.FileMemCache.ClearDir: `shutil.rmtree` is modelled only on an empty directory, which is when the code calls it.
- `list_memory`, `list_files` and `read_funcDef` are modelled as the set of lines they compute (`MemoryListing`, `FileListing`). Their printing and `show` flag are left out. List order and duplicates are not modelled. `FileListing` has no function filter: the remove-while-iterating loop over a Python list (lines 365-368), which can skip entries, is not modelled, because `clear_files` calls `list_files` with an empty `func` and the loop then removes nothing.
- Invalidation.MemoryTargets: the ordered `all_keys` list is a set, so a key listed twice is deleted once, which `DEL` does anyway.
- `print`, `warnings` and the `show` flag are left out.
- `__iter__` is left out.
- The `inspect.signature` binding in `cache_it` is left out: the model takes the bound arguments as a sequence of distinct `(name, value)` pairs.
- Engine.FileMemCache.CacheIt: takes the wrapped function's outcome as a parameter (`Computation`) rather than calling it.
- Engine.FileMemCache.CacheIt: the bare `raise "Unknown ..."` raises a `TypeError` in Python 3; it is the fault `UnknownCacheError`.
- `to_unicode`, `.encode(encoding)` and `pickle` are the identity. A value stored as plain text and read as a pickle fails with `NotAPickle`.
- SHA-512, MD5, `str`, `repr` and `strftime` are uninterpreted. No property assumes them injective. Where a lemma needs the digest to be hexadecimal, or a field to be free of `:`, its precondition says so.
- The `repr` of the argument dict is modelled after CPython's formatting: `{'name': repr(value), ...}`, with `', '` between items. A name holding a quote character is not re-quoted as CPython would.

## Findings

| source | as written | input that shows it | evidently intended | confidence | as-written member | corrected member |
|---|---|---|---|---|---|---|
| filememcache/fileMemCache.py:597 | the end bound is formatted according to the type of `start_date` | `clear(start_date='20200101_0000', end_date=<datetime>)` hands the datetime itself on as `end_str`; `clear(start_date=<datetime>, end_date='20201231_2359')` calls `strftime` on a string and raises | test `type(end_date)`, so each bound is formatted by its own type | high, not executed | Invalidation.ClearBoundsAsWritten (Invalidation.TextStartObjectEnd, Invalidation.ObjectStartTextEnd) | Invalidation.ClearBounds (Invalidation.ClearBoundsAgreeOnSameType) |
| filememcache/fileMemCache.py:557 | the file to delete is `os.path.join(file_dir, f)`, where `f` from `glob.glob` already begins with `file_dir` | a relative `filecache='cache'`: `f = 'cache/ns/Pabc/20200101_0000.pkl'` joined onto `'cache/ns/Pabc'` names a file that does not exist; `FileNotFoundError` is swallowed, so nothing is deleted and nothing is counted | remove `f` itself | high, not executed | Invalidation.DeletionPathAsWritten (Invalidation.DeletionPathMissesRelativeRoot, Invalidation.DeletionAsWrittenFindsNoFile) | Engine.RemoveDatedFiles |
