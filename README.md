# pokedexcli in Dafny

A model of the sequential core of pokedexcli, a command-line client for a public
creature/location REST API, with proofs of what it promises.

- `pokecache.dfy`, module `PokeCache`: the time-to-live cache of
  `internal/pokecache/cache.go`. The class `Cache` holds the entry table
  (`map<string, Entry>`, an entry being a byte payload and its creation time) and the
  fixed `interval`. `Add` overwrites an entry and stamps it with `now`. `Get` is a plain
  lookup that ignores age. `Sweep(now)` is one tick of the reaper goroutine: it visits
  every key and deletes the entries whose age is strictly greater than `interval`. The
  mutex makes each of the three one atomic step, and each method is modelled that way.
  Each method is proved equal to a function on the table (`Put`, `Lookup`, `Swept`), and
  the cache's properties are lemmas about those functions.
- `clean_input.dfy`, module `Words`: `cleanInput` of `main.go`, which is
  `Fields(ToLower(TrimSpace(line)))` over ASCII case and ASCII whitespace. `Fields` is
  pinned down by three equations that determine it: splitting at a space splits the
  fields, a word alone is one field, and a blank string has none. It also undoes
  joining words with single spaces: `Fields(Join(ws)) == ws` for any list of words (a
  left inverse only, since joining the fields of `"a  b"` gives `"a b"`).
- `repl.dfy`, module `Repl`: the command layer of `main.go`. The class `Config` is the
  source's `config`: the shared cache, the pokedex, the pagination URLs and the cleaned
  words of the current line. Its methods are `FetchData` (for `map`/`mapb`), `Catch`,
  `Inspect`, `Explore` and `Step`. `Step` is one pass of the read-eval-print loop: it
  cleans the line, skips a blank one, and otherwise dispatches on the first word. Each
  method is proved equal to a function on a `State` value, and the command rules are
  lemmas about those functions.

Outside inputs are parameters. The clock is an integer `now` in nanoseconds, like Go's
`time.Duration`. A `World` value carries everything else one command takes from
outside:
- the network, as a function from URL to `Fetched`: a transport failure, or a status
  and a body;
- `json.Unmarshal` into the location page, the encounter list and the pokemon record,
  each as a function from bytes to `Option`;
- the random catch rate, which lies in [0, 200];
- the clock reading.

The model keeps these behaviours of the code as written:
- `catch` on a cache hit decodes the record and returns without throwing a ball.
- `catch` never adds the pokemon record to the cache.
- `explore` reads the second word without a length check. This is the `Panicked`
  outcome.
- `explore` caches a body before decoding it. `fetchData` caches only a body that
  decodes.
- A status fails only when it is above 299.

## Model

| member | source | states |
|---|---|---|
| PokeCache.Cache.constructor | internal/pokecache/cache.go:19-27 | a new cache holds the given positive interval and an empty table |
| PokeCache.Cache.Add | internal/pokecache/cache.go:30-37 | the entry at the key becomes (now, val), whatever was there; every other key keeps its entry |
| PokeCache.Cache.Get | internal/pokecache/cache.go:40-48 | returns (payload, true) exactly when the key is in the table, else (nil, false); age is not consulted and the table is unchanged |
| PokeCache.Cache.Sweep | internal/pokecache/cache.go:53-60 | the loop over all keys leaves exactly the entries whose age at `now` is at most the interval, unchanged |
| PokeCache.LookupAfterPut | internal/pokecache/cache_test.go:25-34 | after Add(k, v), Get(k) returns (v, true) |
| PokeCache.LookupMissing | internal/pokecache/cache_test.go:63-69 | Get on a key not in the table returns (nil, false) |
| PokeCache.PutReplaces | internal/pokecache/cache.go:33-36 | a second Add on a key replaces the whole entry: new value and new creation time |
| PokeCache.PutFrame | internal/pokecache/cache.go:33 | Add(k, ...) leaves the presence and value of every other key unchanged |
| PokeCache.SweptExactly | internal/pokecache/cache.go:55-59 | a key survives a sweep iff it was present and its age is at most the interval; survivors keep their entry |
| PokeCache.SweptIsFreshAndIdempotent | internal/pokecache/cache.go:55-59 | after a sweep every entry is at most `interval` old, and a second sweep at the same time changes nothing |
| PokeCache.SweptIsSubTable | internal/pokecache/cache.go:55-59 | a sweep only deletes: no key is added and no entry is altered |
| PokeCache.NoPrematureExpiry | internal/pokecache/cache.go:56 | an entry at most `interval` old survives a sweep, including one exactly `interval` old (strict comparison) |
| PokeCache.LookupIgnoresAge | internal/pokecache/cache.go:40-48 | an over-age entry is still returned by Get until a sweep runs |
| PokeCache.ExpiresAfterTwoIntervals | internal/pokecache/cache_test.go:38-60 | with interval > 0 an entry added at t is found at t and is gone after a sweep at t + 2*interval |
| PokeCache.IndependentKeys | internal/pokecache/cache.go:55-59 | a sweep that expires an old key keeps a young key with its value |
| Words.Lower | main.go:468 | an upper-case letter becomes the letter 32 code points above it (its lower-case form); the result is never upper-case, keeps its whitespace status, and any other character is unchanged |
| Words.ToLower | main.go:468 | same length, each character is Lower of the input's character at that position, no upper-case letter remains, and a string without upper-case letters is unchanged |
| Words.TrimLeft | main.go:468 | the result is a suffix of the input, what was dropped is whitespace, and it does not start with whitespace |
| Words.TrimRight | main.go:468 | the result is a prefix of the input, what was dropped is whitespace, and it does not end with whitespace |
| Words.TrimSpace | main.go:468 | the result neither starts nor ends with whitespace and is empty iff the input is blank |
| Words.TrimSpaceInfix | main.go:468 | the input is leading whitespace, then TrimSpace of it, then trailing whitespace |
| Words.WordEnd | main.go:469 | the length of the leading run of non-whitespace: all before it non-space, the character at it a space or the end |
| Words.Fields | main.go:469 | every field is non-empty and has no whitespace; no field has an upper-case letter when the input has none |
| Words.FieldsSplit | main.go:469 | splitting the input at any whitespace character splits the fields: Fields(a+[c]+b) = Fields(a)+Fields(b) |
| Words.FieldsOfWord | main.go:469 | a non-empty string without whitespace is exactly one field |
| Words.FieldsEmpty | main.go:469 | Fields is empty iff the input is blank |
| Words.FieldsOfJoin | main.go:469 | joining words with single spaces and splitting again returns the words |
| Words.CleanInput | main.go:467-471 | every word of cleanInput is non-empty, has no whitespace and no upper-case letter |
| Words.CleanInputEmpty | main.go:467-471 | cleanInput is empty iff the line is empty or whitespace only |
| Words.CleanInputOfJoin | main.go:467-471 | a line of lower-case words joined by single spaces cleans to exactly those words, in order |
| Words.CleanInputIdempotent | main.go:467-471 | cleaning the re-joined output of cleanInput gives the same words |
| Words.CleanInputIsFieldsOfLower | main.go:468-469 | the TrimSpace step is redundant: cleanInput equals Fields of the lower-cased line |
| Words.CleanInputExampleHelloWorld | repl_test.go:13-16 | "  hello  world  " cleans to ["hello", "world"] |
| Words.CleanInputExampleTrailing | repl_test.go:17-20 | "testing......    " cleans to ["testing......"] |
| Words.CleanInputOfPaddedWord | main.go:467-471 | one word with whitespace around it cleans to that word lower-cased |
| Words.CleanInputExampleUpper | main.go:468 | "  MAP " cleans to ["map"]: case is folded |
| Repl.Config.constructor | main.go:60-67 | the session starts with an empty cache of interval 5 minutes, an empty pokedex, Next at the first location page and Previous empty |
| Repl.Config.FetchData | main.go:412-465 | the new pagination, cache and outcome are those of FetchDataSpec on the old state; the pokedex is not in its frame |
| Repl.Config.Catch | main.go:330-376 | the new pokedex and outcome are those of CatchSpec; the cache is not in its frame, so catch never adds to it |
| Repl.Config.Inspect | main.go:378-386 | changes nothing; fails with NoPokemonName without a second word, shows pokedex[second word] iff that word is in the pokedex, and fails with NotCaught otherwise |
| Repl.Config.Explore | main.go:285-328 | the new cache and outcome are those of ExploreSpec; only the cache is in its frame |
| Repl.Config.Step | main.go:68-89 | one loop pass: the new state and result are those of StepSpec (clean, skip blank, store words, dispatch) |
| Repl.CommandFor | main.go:81 | the lookup finds a command exactly when the word is that command's registered name, and finds nothing for any other word |
| Repl.CommandForName | main.go:18-59 | each command is registered under its own word and under no other |
| Repl.StepDispatch | main.go:78-83 | a line whose first cleaned word is a command's name runs that command on the state holding the line's words |
| Repl.StepFoldsCase | main.go:73-83 | a line that is one word, in any case, padded with whitespace and lower-casing to a command's name runs that command on the words [name] |
| Repl.StepBlank | main.go:73-76 | a line is skipped (and the state untouched) iff it is empty or whitespace only |
| Repl.StepStoresWords | main.go:78-89 | a non-blank line stores its cleaned words (clean, lower-case); an unknown first word changes nothing else |
| Repl.RunCommandKeepsInput | main.go:78-83 | no command callback changes the stored words |
| Repl.RunCommandOnlyGrows | main.go:83 | no command releases a caught pokemon or drops a cache entry; every pokedex key other than the second word keeps exactly its old presence and entry, so the pokedex is added to or changed only under the second word |
| Repl.StepOnlyGrows | main.go:78-89 | across a loop pass the pokedex and cache keys only grow; every pokedex key other than the line's second cleaned word keeps exactly its old presence and entry |
| Repl.FetchDataOutcomes | main.go:412-465 | failures leave the state unchanged; a success replaces both URLs with the decoded page of the selected URL, from the cache (unchanged) or from a fetch of status at most 299 whose body is then cached; conversely a cached page that decodes, or an uncached fetch of status at most 299 that decodes, does succeed with exactly that new state |
| Repl.FetchDataReplay | main.go:420-434 | after a page is fetched and cached, the same request from the same pagination gives the same pagination from the cache, whatever the network now says |
| Repl.CatchNeedsName | main.go:331-333 | catch with fewer than two words fails with NoPokemonName and changes nothing |
| Repl.CatchRule | main.go:365-373 | a fetched, decoded pokemon is caught iff its base experience is at most the rate; caught sets pokedex[target] and nothing else, escaped changes nothing |
| Repl.CatchRateBounds | main.go:367-368 | with the rate in [0, 200], base experience above 200 always escapes and at most 0 is always caught |
| Repl.CatchFrame | main.go:330-376 | catch never changes cache, pagination or words; the pokedex only gains or replaces the typed name, and only on a successful throw |
| Repl.CatchHitNeverThrows | main.go:337-343 | on a cache hit catch changes nothing and returns nil or the decode error |
| Repl.ExploreWithoutLocationPanics | main.go:286 | explore with a single word indexes past the end of the words |
| Repl.ExploreCachesBeforeDecoding | main.go:311-321 | a fetched body with status at most 299 is cached even when it then fails to decode |

## Left out

- The reaper goroutine, `time.NewTicker` and `sync.Mutex`. Each operation is one atomic
  step, and the reaper is explicit `Sweep(now)` calls. Interleavings, bounded staleness
  between ticks and the absence of a stop handle are not modelled.
- `time.Now` and `time.Since`. The clock is an integer argument.
- PokeCache.Cache.Sweep: uses one `now` for the whole pass. The source reads the clock
  once per entry, so an entry that crosses the threshold during the pass may also be
  removed.
- A non-positive interval is excluded by the constructor's precondition. `time.NewTicker`
  panics on one.
- `http.Get`, `io.ReadAll` and `json.Unmarshal` are foreign calls. They are the `World`
  functions, so a decode is any partial function of the bytes.
- The API record structs are reduced to `Name` and `BaseExperience` for a pokemon,
  `Next` and `Previous` for a location page, and a list of names for encounters.
- `rand.Intn(201)` is the `catchRate` input, required to lie in [0, 200].
- Printing, `bufio.Scanner` and the endless loop are I/O. The model has one loop pass,
  `Step`.
- `help`, `pokedex` and the listing part of `map`/`mapb`/`explore` only print. They are
  outcome `Ok` with no state change.
- `exit` calls `os.Exit(0)`. It is the outcome `Exited`, and nothing after it is
  modelled.
- `commandInspect`'s fixed loop over six stats and the printing of types are output
  only. It panics on a record with fewer than six stats, which is not modelled.
- Unicode in `cleanInput`. Only ASCII letters are lower-cased, and only ASCII whitespace
  (tab, newline, vertical tab, form feed, carriage return, space) separates words. Go also
  lower-cases non-ASCII letters and treats U+0085, U+00A0 and other Unicode spaces as
  whitespace. Bytes that are not valid UTF-8 are not modelled either.
