/** The command layer of main.go with its I/O abstracted away.

    The session state (`config` in the source) is the class `Config`: the
    shared cache, the pokedex map, the location pagination and the cleaned
    words of the current line.  Every command is a method on it, proved
    equal to a function on a `State` value; the properties the program
    promises are lemmas about those functions.

    What the outside world contributes to one command is a `World` value:
    the network (http.Get followed by io.ReadAll, as a function of the URL),
    json.Unmarshal into each record shape (as partial functions of the
    bytes), the random catch rate and the clock reading that cache.Add
    would take. */
module Repl {
  import opened PokeCache
  import opened Words

  datatype Option<T> = None | Some(value: T)

  /** The two fields of the API's Pokemon record that the commands use. */
  datatype Pokemon = Pokemon(name: string, baseExperience: int)

  /** locationPagination: the URLs of the next and previous location pages. */
  datatype Pagination = Pagination(next: string, previous: string)

  /** What http.Get followed by io.ReadAll gives for one URL: a failure of
      either call, or a status code and the whole body. */
  datatype Fetched = TransportError | Response(status: int, body: Bytes)

  datatype World = World(
    fetch: string -> Fetched,
    decodeLocations: Bytes -> Option<Pagination>,
    decodeEncounters: Bytes -> Option<seq<string>>,
    decodePokemon: Bytes -> Option<Pokemon>,
    catchRate: int,
    now: int)

  /** The non-nil errors a command callback returns. */
  datatype Error =
    | NoPokemonName      // "no pokemon name provided"
    | NotCaught          // "you have not caught that pokemon yet"
    | TransportFailed    // the error of http.Get or io.ReadAll
    | BadStatus(code: int)
    | DecodeFailed       // the error of json.Unmarshal

  /** What a command callback ends in.  `Thrown` and `Shown` are nil errors
      with the message printed ("was caught!" / "escaped!", or the record
      of the inspected pokemon); `Exited` is os.Exit(0); `Panicked` is the
      index-out-of-range of `explore` without a location. */
  datatype Outcome =
    | Ok
    | Thrown(caught: bool)
    | Shown(pokemon: Pokemon)
    | Failed(err: Error)
    | Exited
    | Panicked

  /** The keys of the `commands` table in main. */
  datatype Command = Help | Exit | Map | MapBack | Explore | Catch | Inspect | ListPokedex

  /** What one line of input does: nothing (blank), "Unknown command", or
      the named command's outcome. */
  datatype StepResult = Blank | Unknown | Ran(cmd: Command, outcome: Outcome)

  /** The value of a `Config`: the cache table, the pokedex, the pagination
      and the words of the last non-blank line. */
  datatype State = State(
    entries: map<string, Entry>,
    pokedex: map<string, Pokemon>,
    pagination: Pagination,
    input: seq<string>)

  const PokemonUrl := "https://pokeapi.co/api/v2/pokemon/"
  const LocationAreaUrl := "https://pokeapi.co/api/v2/location-area/"
  const FirstLocationsUrl := "https://pokeapi.co/api/v2/location-area"
  /** 5 * time.Minute, in nanoseconds. */
  const CacheInterval := 300_000_000_000

  /** The word under which a command is registered. */
  function Name(c: Command): (r: string)
  {
    match c
    case Help => "help"
    case Exit => "exit"
    case Map => "map"
    case MapBack => "mapb"
    case Explore => "explore"
    case Catch => "catch"
    case Inspect => "inspect"
    case ListPokedex => "pokedex"
  }

  /** The lookup `commands[commandName]`: a command is found exactly when
      the word is its registered name. */
  function CommandFor(word: string): (r: Option<Command>)
    ensures r.Some? ==> Name(r.value) == word
    ensures r.None? ==> forall c: Command :: Name(c) != word
  {
    if word == "help" then Some(Help)
    else if word == "exit" then Some(Exit)
    else if word == "map" then Some(Map)
    else if word == "mapb" then Some(MapBack)
    else if word == "explore" then Some(Explore)
    else if word == "catch" then Some(Catch)
    else if word == "inspect" then Some(Inspect)
    else if word == "pokedex" then Some(ListPokedex)
    else None
  }

  // ---------------------------------------------------------------------
  // The commands as functions of the state.

  /** fetchData: follow `next` or `previous`; a cached page is decoded from
      the cache, any other is fetched, and only a page that arrives with a
      status of at most 299 and decodes is cached; a decoded page replaces
      both pagination URLs. */
  function FetchDataSpec(s: State, next: bool, w: World): (r: (State, Outcome))
  {
    var url := if next then s.pagination.next else s.pagination.previous;
    if url in s.entries then
      match w.decodeLocations(s.entries[url].val)
      case None => (s, Failed(DecodeFailed))
      case Some(p) => (s.(pagination := p), Ok)
    else
      match w.fetch(url)
      case TransportError => (s, Failed(TransportFailed))
      case Response(status, body) =>
        if status > 299 then (s, Failed(BadStatus(status)))
        else
          match w.decodeLocations(body)
          case None => (s, Failed(DecodeFailed))
          case Some(p) => (s.(entries := Put(s.entries, url, body, w.now), pagination := p), Ok)
  }

  /** The ball throw: the pokemon escapes when its base experience is above
      the rate, and is otherwise stored under the name the user typed. */
  function Throw(s: State, target: string, p: Pokemon, catchRate: int): (r: (State, Outcome))
  {
    if p.baseExperience > catchRate then (s, Thrown(false))
    else (s.(pokedex := s.pokedex[target := p]), Thrown(true))
  }

  /** commandCatch.  A cached record is decoded and nothing is thrown; a
      fetched record is thrown at but never added to the cache. */
  function CatchSpec(s: State, w: World): (r: (State, Outcome))
  {
    if |s.input| < 2 then (s, Failed(NoPokemonName))
    else
      var target := s.input[1];
      var url := PokemonUrl + target;
      if url in s.entries then
        match w.decodePokemon(s.entries[url].val)
        case None => (s, Failed(DecodeFailed))
        case Some(_) => (s, Ok)
      else
        match w.fetch(url)
        case TransportError => (s, Failed(TransportFailed))
        case Response(status, body) =>
          if status > 299 then (s, Failed(BadStatus(status)))
          else
            match w.decodePokemon(body)
            case None => (s, Failed(DecodeFailed))
            case Some(p) => Throw(s, target, p, w.catchRate)
  }

  /** commandInspect: the caught pokemon named by the second word. */
  function InspectSpec(s: State): (r: Outcome)
  {
    if |s.input| < 2 then Failed(NoPokemonName)
    else if s.input[1] in s.pokedex then Shown(s.pokedex[s.input[1]])
    else Failed(NotCaught)
  }

  /** commandExplore.  The second word is read without a length check; a
      fetched page with a status of at most 299 is cached before it is
      decoded. */
  function ExploreSpec(s: State, w: World): (r: (State, Outcome))
  {
    if |s.input| < 2 then (s, Panicked)
    else
      var url := LocationAreaUrl + s.input[1];
      if url in s.entries then
        match w.decodeEncounters(s.entries[url].val)
        case None => (s, Failed(DecodeFailed))
        case Some(_) => (s, Ok)
      else
        match w.fetch(url)
        case TransportError => (s, Failed(TransportFailed))
        case Response(status, body) =>
          if status > 299 then (s, Failed(BadStatus(status)))
          else
            var s' := s.(entries := Put(s.entries, url, body, w.now));
            match w.decodeEncounters(body)
            case None => (s', Failed(DecodeFailed))
            case Some(_) => (s', Ok)
  }

  /** The callback of each command. */
  function RunCommand(c: Command, s: State, w: World): (r: (State, Outcome))
  {
    match c
    case Help => (s, Ok)
    case Exit => (s, Exited)
    case Map => FetchDataSpec(s, true, w)
    case MapBack => FetchDataSpec(s, false, w)
    case Explore => ExploreSpec(s, w)
    case Catch => CatchSpec(s, w)
    case Inspect => (s, InspectSpec(s))
    case ListPokedex => (s, Ok)
  }

  /** One pass of the loop in main: clean the line, skip it when blank,
      otherwise store the words and dispatch on the first. */
  function StepSpec(s: State, line: string, w: World): (r: (State, StepResult))
  {
    var words := CleanInput(line);
    if words == [] then (s, Blank)
    else
      var s1 := s.(input := words);
      match CommandFor(words[0])
      case None => (s1, Unknown)
      case Some(c) =>
        var (s2, o) := RunCommand(c, s1, w);
        (s2, Ran(c, o))
  }

  // ---------------------------------------------------------------------
  // The session state, updated in place.

  class Config {
    const cache: Cache
    var pokedex: map<string, Pokemon>
    var pagination: Pagination
    var input: seq<string>

    ghost function Snapshot(): (r: State)
      reads this, cache
    {
      State(cache.entries, pokedex, pagination, input)
    }

    /** The config that main builds before its loop. */
    constructor ()
      ensures fresh(cache) && cache.interval == CacheInterval
      ensures Snapshot() == State(map[], map[], Pagination(FirstLocationsUrl, ""), [])
    {
      cache := new Cache(CacheInterval);
      pokedex := map[];
      pagination := Pagination(FirstLocationsUrl, "");
      input := [];
    }

    method FetchData(next: bool, w: World) returns (o: Outcome)
      modifies this`pagination, cache
      ensures (Snapshot(), o) == FetchDataSpec(old(Snapshot()), next, w)
    {
      var url := if next then pagination.next else pagination.previous;
      var cached, ok := cache.Get(url);
      if ok {
        match w.decodeLocations(cached)
        case None =>
          return Failed(DecodeFailed);
        case Some(p) =>
          pagination := Pagination(p.next, p.previous);
          return Ok;
      }
      match w.fetch(url)
      case TransportError =>
        o := Failed(TransportFailed);
      case Response(status, body) =>
        if status > 299 {
          return Failed(BadStatus(status));
        }
        match w.decodeLocations(body)
        case None =>
          o := Failed(DecodeFailed);
        case Some(p) =>
          cache.Add(url, body, w.now);
          pagination := Pagination(p.next, p.previous);
          o := Ok;
    }

    method Catch(w: World) returns (o: Outcome)
      requires 0 <= w.catchRate <= 200
      modifies this`pokedex
      ensures (Snapshot(), o) == CatchSpec(old(Snapshot()), w)
    {
      if |input| < 2 {
        return Failed(NoPokemonName);
      }
      var target := input[1];
      var url := PokemonUrl + target;
      var data, ok := cache.Get(url);
      if ok {
        match w.decodePokemon(data)
        case None =>
          return Failed(DecodeFailed);
        case Some(_) =>
          return Ok;
      }
      match w.fetch(url)
      case TransportError =>
        o := Failed(TransportFailed);
      case Response(status, body) =>
        if status > 299 {
          return Failed(BadStatus(status));
        }
        match w.decodePokemon(body)
        case None =>
          o := Failed(DecodeFailed);
        case Some(pokemon) =>
          if pokemon.baseExperience > w.catchRate {
            o := Thrown(false);
          } else {
            pokedex := pokedex[target := pokemon];
            o := Thrown(true);
          }
    }

    method Inspect() returns (o: Outcome)
      ensures o == InspectSpec(Snapshot())
      ensures |input| < 2 ==> o == Failed(NoPokemonName)
      ensures |input| >= 2 ==> (o.Shown? <==> input[1] in pokedex)
      ensures o.Shown? ==> o.pokemon == pokedex[input[1]]
      ensures |input| >= 2 && !o.Shown? ==> o == Failed(NotCaught)
    {
      if |input| < 2 {
        return Failed(NoPokemonName);
      }
      var target := input[1];
      if target !in pokedex {
        return Failed(NotCaught);
      }
      o := Shown(pokedex[target]);
    }

    method Explore(w: World) returns (o: Outcome)
      modifies cache
      ensures (Snapshot(), o) == ExploreSpec(old(Snapshot()), w)
    {
      if |input| < 2 {
        return Panicked;
      }
      var url := LocationAreaUrl + input[1];
      var data, ok := cache.Get(url);
      if ok {
        match w.decodeEncounters(data)
        case None =>
          return Failed(DecodeFailed);
        case Some(_) =>
          return Ok;
      }
      match w.fetch(url)
      case TransportError =>
        o := Failed(TransportFailed);
      case Response(status, body) =>
        if status > 299 {
          return Failed(BadStatus(status));
        }
        cache.Add(url, body, w.now);
        match w.decodeEncounters(body)
        case None =>
          o := Failed(DecodeFailed);
        case Some(_) =>
          o := Ok;
    }

    /** One pass of the read-eval-print loop on the line `line`. */
    method Step(line: string, w: World) returns (r: StepResult)
      requires 0 <= w.catchRate <= 200
      modifies this, cache
      ensures (Snapshot(), r) == StepSpec(old(Snapshot()), line, w)
    {
      var words := CleanInput(line);
      if words == [] {
        return Blank;
      }
      input := words;
      match CommandFor(words[0])
      case None =>
        r := Unknown;
      case Some(c) =>
        var o: Outcome;
        match c {
          case Help => o := Ok;
          case Exit => o := Exited;
          case Map => o := FetchData(true, w);
          case MapBack => o := FetchData(false, w);
          case Explore => o := Explore(w);
          case Catch => o := Catch(w);
          case Inspect => o := Inspect();
          case ListPokedex => o := Ok;
        }
        r := Ran(c, o);
    }
  }

  // ---------------------------------------------------------------------
  // Dispatch.

  /** Each command is registered under its own word, and under no other. */
  lemma CommandForName(c: Command, word: string)
    ensures CommandFor(Name(c)) == Some(c)
    ensures CommandFor(word) == Some(c) ==> word == Name(c)
  {
  }

  /** A blank line (empty or whitespace only) is skipped without touching
      the state, and it is the only kind of line that is skipped. */
  lemma StepBlank(s: State, line: string, w: World)
    ensures StepSpec(s, line, w).1 == Blank <==> AllSpace(line)
    ensures AllSpace(line) ==> StepSpec(s, line, w).0 == s
  {
    CleanInputEmpty(line);
  }

  /** A non-blank line stores its cleaned words, all non-empty, free of
      whitespace and lower-case; a first word that names no command leaves
      everything else as it was. */
  lemma StepStoresWords(s: State, line: string, w: World)
    requires !AllSpace(line)
    ensures StepSpec(s, line, w).0.input == CleanInput(line) != []
    ensures forall i | 0 <= i < |StepSpec(s, line, w).0.input| ::
      IsWord(StepSpec(s, line, w).0.input[i]) && NoUpper(StepSpec(s, line, w).0.input[i])
    ensures CommandFor(CleanInput(line)[0]) == None ==>
      StepSpec(s, line, w) == (s.(input := CleanInput(line)), Unknown)
  {
    CleanInputEmpty(line);
    var words := CleanInput(line);
    var s1 := s.(input := words);
    match CommandFor(words[0])
    case None =>
    case Some(c) =>
      RunCommandKeepsInput(c, s1, w);
  }

  /** The command word is matched after case folding: a line that is one
      word surrounded by whitespace, lower-casing to a command's name
      ("  MAP ", "Catch"), runs that command on the words [name]. */
  lemma StepFoldsCase(s: State, lead: string, u: string, trail: string, w: World, c: Command)
    requires AllSpace(lead) && AllSpace(trail) && ToLower(u) == Name(c)
    ensures var (s', o) := RunCommand(c, s.(input := [Name(c)]), w);
      StepSpec(s, lead + u + trail, w) == (s', Ran(c, o))
  {
    NameIsWord(c);
    CleanInputOfPaddedWord(lead, u, trail);
    StepDispatch(s, lead + u + trail, w, c);
  }

  /** Every registered name is a single word. */
  lemma NameIsWord(c: Command)
    ensures IsWord(Name(c))
  {
    match c
    case Help => assert IsWord("help");
    case Exit => assert IsWord("exit");
    case Map => assert IsWord("map");
    case MapBack => assert IsWord("mapb");
    case Explore => assert IsWord("explore");
    case Catch => assert IsWord("catch");
    case Inspect => assert IsWord("inspect");
    case ListPokedex => assert IsWord("pokedex");
  }

  /** A line whose first cleaned word names a command runs that command
      on the state holding the line's words. */
  lemma StepDispatch(s: State, line: string, w: World, c: Command)
    requires CleanInput(line) != [] && CleanInput(line)[0] == Name(c)
    ensures var (s', o) := RunCommand(c, s.(input := CleanInput(line)), w);
      StepSpec(s, line, w) == (s', Ran(c, o))
  {
    CommandForName(c, Name(c));
  }

  /** No command changes the stored words. */
  lemma RunCommandKeepsInput(c: Command, s: State, w: World)
    ensures RunCommand(c, s, w).0.input == s.input
  {
  }

  /** No command releases a caught pokemon or drops a cache entry, and a
      pokedex entry can change only under the second word. */
  lemma RunCommandOnlyGrows(c: Command, s: State, w: World)
    ensures s.pokedex.Keys <= RunCommand(c, s, w).0.pokedex.Keys
    ensures s.entries.Keys <= RunCommand(c, s, w).0.entries.Keys
    ensures forall k | k in RunCommand(c, s, w).0.pokedex && !(|s.input| >= 2 && k == s.input[1]) ::
      k in s.pokedex && RunCommand(c, s, w).0.pokedex[k] == s.pokedex[k]
  {
    match c
    case Catch => CatchFrame(s, w);
    case Map => FetchDataOutcomes(s, true, w);
    case MapBack => FetchDataOutcomes(s, false, w);
    case _ =>
  }

  /** Across any step, caught pokemon are never released and cache entries
      are never dropped (only the reaper drops them); a pokedex entry can
      change only under the second word of the line. */
  lemma StepOnlyGrows(s: State, line: string, w: World)
    ensures s.pokedex.Keys <= StepSpec(s, line, w).0.pokedex.Keys
    ensures s.entries.Keys <= StepSpec(s, line, w).0.entries.Keys
    ensures forall k | k in StepSpec(s, line, w).0.pokedex && !(|CleanInput(line)| >= 2 && k == CleanInput(line)[1]) ::
      k in s.pokedex && StepSpec(s, line, w).0.pokedex[k] == s.pokedex[k]
  {
    var words := CleanInput(line);
    if words != [] {
      var s1 := s.(input := words);
      match CommandFor(words[0])
      case None =>
      case Some(c) => RunCommandOnlyGrows(c, s1, w);
    }
  }

  // ---------------------------------------------------------------------
  // fetchData.

  /** Every failure leaves pagination and cache as they were.  A success
      either found the selected page in the cache, which stays unchanged,
      or fetched it with a status of at most 299 and cached its body; in
      both cases the page's decoded URLs replace both pagination URLs.
      The pokedex and the words are never touched. */
  lemma FetchDataOutcomes(s: State, next: bool, w: World)
    ensures var (s', o) := FetchDataSpec(s, next, w);
      && (o.Failed? || o == Ok)
      && (o.Failed? ==> s' == s)
      && s'.pokedex == s.pokedex && s'.input == s.input
    ensures var (s', o) := FetchDataSpec(s, next, w);
      var url := if next then s.pagination.next else s.pagination.previous;
      o == Ok ==>
        if url in s.entries then
          s'.entries == s.entries && w.decodeLocations(s.entries[url].val) == Some(s'.pagination)
        else
          && w.fetch(url).Response?
          && w.fetch(url).status <= 299
          && s'.entries == Put(s.entries, url, w.fetch(url).body, w.now)
          && w.decodeLocations(w.fetch(url).body) == Some(s'.pagination)
    ensures forall p: Pagination ::
      var url := if next then s.pagination.next else s.pagination.previous;
      url in s.entries && w.decodeLocations(s.entries[url].val) == Some(p) ==>
        FetchDataSpec(s, next, w) == (s.(pagination := p), Ok)
    ensures forall p: Pagination ::
      var url := if next then s.pagination.next else s.pagination.previous;
      && url !in s.entries && w.fetch(url).Response? && w.fetch(url).status <= 299
      && w.decodeLocations(w.fetch(url).body) == Some(p) ==>
        FetchDataSpec(s, next, w) == (s.(entries := Put(s.entries, url, w.fetch(url).body, w.now), pagination := p), Ok)
  {
  }

  /** The cache is transparent: after a page was fetched and cached, asking
      for it again from the same pagination gives the same new pagination
      without the network and without changing the cache, whatever the
      network would now answer. */
  lemma FetchDataReplay(s: State, next: bool, w: World, w2: World)
    requires forall b :: w2.decodeLocations(b) == w.decodeLocations(b)
    requires FetchDataSpec(s, next, w).1 == Ok
    ensures var s' := FetchDataSpec(s, next, w).0;
      FetchDataSpec(s'.(pagination := s.pagination), next, w2) == (s', Ok)
  {
    var url := if next then s.pagination.next else s.pagination.previous;
    var s' := FetchDataSpec(s, next, w).0;
    if url !in s.entries {
      assert s'.entries[url].val == w.fetch(url).body;
    }
  }

  // ---------------------------------------------------------------------
  // catch and inspect.

  /** `catch` without a name fails with "no pokemon name provided" and
      leaves the state alone. */
  lemma CatchNeedsName(s: State, w: World)
    requires |s.input| < 2
    ensures CatchSpec(s, w) == (s, Failed(NoPokemonName))
  {
  }

  /** The throw: a pokemon fetched with a status of at most 299 and decoded
      is caught exactly when its base experience is at most the rate; a
      catch stores it under the typed name and changes no other entry, an
      escape changes nothing. */
  lemma CatchRule(s: State, w: World, p: Pokemon)
    requires |s.input| >= 2
    requires PokemonUrl + s.input[1] !in s.entries
    requires w.fetch(PokemonUrl + s.input[1]).Response?
    requires w.fetch(PokemonUrl + s.input[1]).status <= 299
    requires w.decodePokemon(w.fetch(PokemonUrl + s.input[1]).body) == Some(p)
    ensures CatchSpec(s, w).1 == Thrown(p.baseExperience <= w.catchRate)
    ensures p.baseExperience <= w.catchRate ==>
      CatchSpec(s, w).0 == s.(pokedex := s.pokedex[s.input[1] := p])
    ensures p.baseExperience > w.catchRate ==> CatchSpec(s, w).0 == s
  {
  }

  /** With the rate drawn from [0, 200], a pokemon whose base experience is
      above 200 always escapes and one at or below 0 is always caught. */
  lemma CatchRateBounds(s: State, w: World, p: Pokemon)
    requires 0 <= w.catchRate <= 200
    requires |s.input| >= 2
    requires PokemonUrl + s.input[1] !in s.entries
    requires w.fetch(PokemonUrl + s.input[1]).Response?
    requires w.fetch(PokemonUrl + s.input[1]).status <= 299
    requires w.decodePokemon(w.fetch(PokemonUrl + s.input[1]).body) == Some(p)
    ensures p.baseExperience > 200 ==> CatchSpec(s, w).1 == Thrown(false)
    ensures p.baseExperience <= 0 ==> CatchSpec(s, w).1 == Thrown(true)
  {
    CatchRule(s, w, p);
  }

  /** `catch` never adds to the cache and never changes pagination or
      words; it changes the pokedex only at the typed name, and only by a
      successful throw. */
  lemma CatchFrame(s: State, w: World)
    ensures var (s', o) := CatchSpec(s, w);
      && s'.entries == s.entries && s'.pagination == s.pagination && s'.input == s.input
      && s.pokedex.Keys <= s'.pokedex.Keys
      && (s'.pokedex != s.pokedex ==> o == Thrown(true))
      && forall k | k in s'.pokedex && (|s.input| < 2 || k != s.input[1]) ::
           k in s.pokedex && s'.pokedex[k] == s.pokedex[k]
  {
  }

  /** A record already in the cache is decoded but never thrown at. */
  lemma CatchHitNeverThrows(s: State, w: World)
    requires |s.input| >= 2 && PokemonUrl + s.input[1] in s.entries
    ensures CatchSpec(s, w).0 == s
    ensures CatchSpec(s, w).1 == Ok || CatchSpec(s, w).1 == Failed(DecodeFailed)
  {
  }

  // ---------------------------------------------------------------------
  // explore.

  /** `explore` alone indexes past the end of the words. */
  lemma ExploreWithoutLocationPanics(s: State, w: World)
    requires |s.input| < 2
    ensures ExploreSpec(s, w) == (s, Panicked)
  {
  }

  /** A fetched location with a status of at most 299 is cached even when
      it then fails to decode; `explore` never touches anything but the
      cache. */
  lemma ExploreCachesBeforeDecoding(s: State, w: World)
    requires |s.input| >= 2
    requires LocationAreaUrl + s.input[1] !in s.entries
    requires w.fetch(LocationAreaUrl + s.input[1]).Response?
    requires w.fetch(LocationAreaUrl + s.input[1]).status <= 299
    ensures var url := LocationAreaUrl + s.input[1];
      ExploreSpec(s, w).0 == s.(entries := Put(s.entries, url, w.fetch(url).body, w.now))
    ensures w.decodeEncounters(w.fetch(LocationAreaUrl + s.input[1]).body) == None ==>
      ExploreSpec(s, w).1 == Failed(DecodeFailed)
  {
  }
}
