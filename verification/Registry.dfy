/** The registry client: memory cache, HTTP fetch with retries, and the disk copy as a last resort. */
module Registry {
  import opened Sequences

  // ---- The disk copy: one address a line

  type Lines = seq<string>

  predicate GoodAddress(a: string) { a != "" && '\n' !in a }

  predicate AllGood(addrs: Lines) { forall i :: 0 <= i < |addrs| ==> GoodAddress(addrs[i]) }

  /** What saveToDisk writes. */
  function Text(addrs: Lines): string {
    if addrs == [] then "" else addrs[0] + "\n" + Text(addrs[1..])
  }

  function NonEmpty(line: string): Lines { if line == "" then [] else [line] }

  /** What the getline loop of loadFromDisk reads, `line` being the line begun. */
  function ReadLines(line: string, s: string): Lines
    decreases |s|
  {
    if s == "" then NonEmpty(line)
    else if s[0] == '\n' then NonEmpty(line) + ReadLines("", s[1..])
    else ReadLines(line + [s[0]], s[1..])
  }

  lemma {:induction false} ReadLinesGood(line: string, s: string)
    requires '\n' !in line
    ensures AllGood(ReadLines(line, s))
    decreases |s|
  {
    if s != "" {
      if s[0] == '\n' {
        ReadLinesGood("", s[1..]);
      } else {
        ReadLinesGood(line + [s[0]], s[1..]);
      }
    }
  }

  lemma {:induction false} ReadLine(line: string, a: string, rest: string)
    requires '\n' !in a
    ensures ReadLines(line, a + "\n" + rest) == NonEmpty(line + a) + ReadLines("", rest)
    decreases |a|
  {
    var s := a + "\n" + rest;
    if a == "" {
      assert s[1..] == rest && line + a == line;
    } else {
      assert s[1..] == a[1..] + "\n" + rest && line + [a[0]] + a[1..] == line + a;
      ReadLine(line + [a[0]], a[1..], rest);
    }
  }

  lemma {:induction false} ReadText(addrs: Lines)
    requires AllGood(addrs)
    ensures ReadLines("", Text(addrs)) == addrs
  {
    if addrs != [] {
      ReadText(addrs[1..]);
      ReadLine("", addrs[0], Text(addrs[1..]));
      assert "" + addrs[0] == addrs[0];
    }
  }

  /** A saved list is loaded back exactly when no address is empty or holds a newline. */
  lemma DiskRoundTrip(addrs: Lines)
    ensures ReadLines("", Text(addrs)) == addrs <==> AllGood(addrs)
  {
    ReadLinesGood("", Text(addrs));
    if AllGood(addrs) {
      ReadText(addrs);
    }
  }

  /** A file of lines, the last perhaps unfinished. */
  function Joined(lines: Lines, last: string): string {
    if lines == [] then last else lines[0] + "\n" + Joined(lines[1..], last)
  }

  function NonEmpties(lines: Lines): Lines {
    if lines == [] then [] else NonEmpty(lines[0]) + NonEmpties(lines[1..])
  }

  lemma {:induction false} ReadLast(line: string, last: string)
    requires '\n' !in last
    ensures ReadLines(line, last) == NonEmpty(line + last)
    decreases |last|
  {
    if last == "" {
      assert line + last == line;
    } else {
      assert line + [last[0]] + last[1..] == line + last;
      ReadLast(line + [last[0]], last[1..]);
    }
  }

  /** Whatever a file holds, its lines that are not empty are read, an unfinished last one included. */
  lemma {:induction false} ReadsLines(lines: Lines, last: string)
    requires '\n' !in last && forall i :: 0 <= i < |lines| ==> '\n' !in lines[i]
    ensures ReadLines("", Joined(lines, last)) == NonEmpties(lines) + NonEmpty(last)
  {
    if lines == [] {
      ReadLast("", last);
      assert "" + last == last;
    } else {
      ReadLine("", lines[0], Joined(lines[1..], last));
      assert "" + lines[0] == lines[0];
      ReadsLines(lines[1..], last);
      Regroup(NonEmpty(lines[0]), NonEmpties(lines[1..]), NonEmpty(last));
    }
  }

  /** Every file is such a file. */
  lemma {:induction false} EveryFile(s: string) returns (lines: Lines, last: string)
    ensures Joined(lines, last) == s && '\n' !in last && forall i :: 0 <= i < |lines| ==> '\n' !in lines[i]
  {
    lines, last := [], "";
    if s != "" {
      lines, last := EveryFile(s[1..]);
      if s[0] == '\n' {
        lines := [""] + lines;
        assert lines[1..] == lines[1..] && "" + "\n" + s[1..] == s;
      } else if lines == [] {
        last := [s[0]] + last;
      } else {
        var more := lines[1..];
        var first := [s[0]] + lines[0];
        assert first + "\n" + Joined(more, last) == [s[0]] + (lines[0] + "\n" + Joined(more, last));
        lines := [first] + more;
        assert lines[1..] == more;
      }
    }
  }

  const SUFFIX: string := "_cache.txt"
  const TEMPORARY: string := ".tmp"

  function FileName(service: string): string { service + SUFFIX }

  function TempName(service: string): string { FileName(service) + TEMPORARY }

  /** Files of different services, and temporary files, never share a name. */
  lemma NamesApart(a: string, b: string)
    ensures FileName(a) == FileName(b) <==> a == b
    ensures TempName(a) != FileName(b)
  {
    assert FileName(a) == FileName(b) ==> FileName(a)[..|a|] == FileName(b)[..|b|];
    assert TempName(a)[|TempName(a)| - 1] == 'p' && FileName(b)[|FileName(b)| - 1] == 't';
  }

  // ---- The environment

  /** One GET: no answer or not 200; not JSON; not an array; an array of other things; a list. */
  datatype Answer = NoAnswer | NotJson | NotArray | WrongElements | Listed(addrs: Lines)

  datatype WriteOutcome = Written | CannotOpen | CannotRename | Torn(kept: nat)

  /** What happens around one call of getAddresses: clock readings in nanoseconds, answers, disk. */
  datatype Env = Env(now: int, answers: seq<Answer>, finished: int, write: WriteOutcome, readable: bool)

  const SECOND: int := 1_000_000_000

  datatype Config = Config(cacheExpire: int, retryTimes: int)

  datatype CacheItem = CacheItem(addrs: Lines, timestamp: int)

  datatype State = State(cache: map<string, CacheItem>, files: map<string, string>)

  // ---- The operations

  /** `duration_cast<seconds>`, which truncates toward zero. */
  function Seconds(d: int): int { if d >= 0 then d / SECOND else -(-d / SECOND) }

  datatype Fetched = Got(addrs: Lines) | Thrown

  function AnswerAt(answers: seq<Answer>, i: nat): Answer {
    if i < |answers| then answers[i] else NoAnswer
  }

  /** A list ends the retries, and so does the exception for an array of other things. */
  predicate Decisive(a: Answer) { a.Listed? || a.WrongElements? }

  function Verdict(a: Answer): Fetched
    requires Decisive(a)
  {
    if a.Listed? then Got(a.addrs) else Thrown
  }

  /** The retry loop from its i-th turn; an array of other things throws out of it. */
  function FetchFrom(cfg: Config, answers: seq<Answer>, i: nat): Fetched
    decreases cfg.retryTimes + 1 - i
  {
    if i > cfg.retryTimes then Got([]) else
    match AnswerAt(answers, i)
    case Listed(addrs) => Got(addrs)
    case WrongElements => Thrown
    case _ => FetchFrom(cfg, answers, i + 1)
  }

  function Truncate(s: string, n: nat): string { if n < |s| then s[..n] else s }

  /** `saveToDisk`: write the temporary file, then rename it. */
  function Save(files: map<string, string>, service: string, addrs: Lines, write: WriteOutcome): map<string, string> {
    match write
    case CannotOpen => files
    case CannotRename => files[TempName(service) := Text(addrs)]
    case Written => (files - {TempName(service)})[FileName(service) := Text(addrs)]
    case Torn(n) => (files - {TempName(service)})[FileName(service) := Truncate(Text(addrs), n)]
  }

  function Load(files: map<string, string>, service: string, readable: bool): Lines {
    if readable && FileName(service) in files then ReadLines("", files[FileName(service)]) else []
  }

  datatype Outcome = Returned(addrs: Lines) | Threw

  predicate Fresh(cfg: Config, s: State, service: string, now: int) {
    service in s.cache && Seconds(now - s.cache[service].timestamp) < cfg.cacheExpire
  }

  function Get(cfg: Config, s: State, service: string, env: Env): (State, Outcome) {
    if Fresh(cfg, s, service, env.now) then (s, Returned(s.cache[service].addrs)) else
    match FetchFrom(cfg, env.answers, 0)
    case Thrown => (s, Threw)
    case Got(addrs) =>
      if addrs != [] then
        (State(s.cache[service := CacheItem(addrs, env.finished)], Save(s.files, service, addrs, env.write)),
         Returned(addrs))
      else
        var old_ := Load(s.files, service, env.readable);
        (s.(cache := s.cache[service := CacheItem(old_, env.finished)]), Returned(old_))
  }

  class RegistryClient {
    const cfg: Config
    var cache: map<string, CacheItem>
    var files: map<string, string>   // the working directory

    function Abstract(): State
      reads this
    {
      State(cache, files)
    }

    constructor (cfg: Config, files: map<string, string>)
      ensures this.cfg == cfg && Abstract() == State(map[], files)
    {
      this.cfg := cfg;
      this.cache := map[];
      this.files := files;
    }

    /**
     * The retry loop: at most retryTimes + 1 requests, the last one made being the first that gave a
     * list or threw, and an empty result only when all of them were inconclusive or a list was empty.
     */
    method FetchFromRegistry(answers: seq<Answer>) returns (r: Fetched, gets: nat)
      ensures r == FetchFrom(cfg, answers, 0)
      ensures gets <= if cfg.retryTimes < 0 then 0 else cfg.retryTimes + 1
      ensures forall k :: 0 <= k < gets - 1 ==> !Decisive(AnswerAt(answers, k))
      ensures gets > 0 && Decisive(AnswerAt(answers, gets - 1)) ==> r == Verdict(AnswerAt(answers, gets - 1))
      ensures !(gets > 0 && Decisive(AnswerAt(answers, gets - 1))) ==> r == Got([]) && gets > cfg.retryTimes
    {
      gets := 0;
      while gets <= cfg.retryTimes
        invariant gets <= if cfg.retryTimes < 0 then 0 else cfg.retryTimes + 1
        invariant FetchFrom(cfg, answers, 0) == FetchFrom(cfg, answers, gets)
        invariant forall k :: 0 <= k < gets ==> !Decisive(AnswerAt(answers, k))
        decreases cfg.retryTimes + 1 - gets
      {
        var answer := AnswerAt(answers, gets);
        gets := gets + 1;
        match answer
        case Listed(addrs) => return Got(addrs), gets;
        case WrongElements => return Thrown, gets;
        case _ =>
      }
      r := Got([]);
    }

    /** The getline loop, skipping empty lines. */
    method LoadFromDisk(service: string, readable: bool) returns (addrs: Lines)
      ensures addrs == Load(files, service, readable)
    {
      addrs := [];
      if !readable || FileName(service) !in files {
        return;
      }
      var s := files[FileName(service)];
      var i, line := 0, "";
      while i < |s|
        invariant 0 <= i <= |s|
        invariant ReadLines("", s) == addrs + ReadLines(line, s[i..])
      {
        assert s[i..][1..] == s[i + 1..];
        if s[i] == '\n' {
          Regroup(addrs, NonEmpty(line), ReadLines("", s[i + 1..]));
          if line != "" {
            addrs := addrs + [line];
          }
          line := "";
        } else {
          line := line + [s[i]];
        }
        i := i + 1;
      }
      assert s[i..] == "";
      if line != "" {
        addrs := addrs + [line];
      }
    }

    /** Write the lines to the temporary file and rename it over the old one. */
    method SaveToDisk(service: string, addrs: Lines, write: WriteOutcome)
      modifies this`files
      ensures files == Save(old(files), service, addrs, write)
    {
      if write.CannotOpen? {
        return;
      }
      var text := "";
      for i := 0 to |addrs|
        invariant text + Text(addrs[i..]) == Text(addrs)
      {
        assert addrs[i..][1..] == addrs[i + 1..];
        assert text + (addrs[i] + "\n" + Text(addrs[i + 1..])) == text + addrs[i] + "\n" + Text(addrs[i + 1..]);
        text := text + addrs[i] + "\n";
      }
      assert text == Text(addrs);
      if write.CannotRename? {
        files := files[TempName(service) := text];
      } else if write.Torn? {
        files := (files - {TempName(service)})[FileName(service) := Truncate(text, write.kept)];
      } else {
        files := (files - {TempName(service)})[FileName(service) := text];
      }
    }

    method GetAddresses(service: string, env: Env) returns (r: Outcome)
      modifies this
      ensures (Abstract(), r) == Get(cfg, old(Abstract()), service, env)
    {
      if service in cache {
        var diff := Seconds(env.now - cache[service].timestamp);
        if diff < cfg.cacheExpire {
          return Returned(cache[service].addrs);
        }
      }
      var fetched, gets := FetchFromRegistry(env.answers);
      if fetched.Thrown? {
        return Threw;
      }
      var addrs := fetched.addrs;
      if addrs != [] {
        SaveToDisk(service, addrs, env.write);
        cache := cache[service := CacheItem(addrs, env.finished)];
        return Returned(addrs);
      }
      addrs := LoadFromDisk(service, env.readable);
      cache := cache[service := CacheItem(addrs, env.finished)];
      r := Returned(addrs);
    }
  }

  // ---- Serialised runs

  datatype Call = Call(service: string, env: Env)

  function After(cfg: Config, s: State, calls: seq<Call>): State
    decreases |calls|
  {
    if calls == [] then s else After(cfg, Get(cfg, s, calls[0].service, calls[0].env).0, calls[1..])
  }

  /** Does this call go to the registry? */
  predicate Contacts(cfg: Config, s: State, c: Call) { !Fresh(cfg, s, c.service, c.env.now) }

  /** The last non-empty list fetched for each service. */
  function Latest(cfg: Config, s: State, calls: seq<Call>, known: map<string, Lines>): map<string, Lines>
    decreases |calls|
  {
    if calls == [] then known
    else Latest(cfg, Get(cfg, s, calls[0].service, calls[0].env).0, calls[1..], Learn(cfg, s, calls[0], known))
  }

  function Learn(cfg: Config, s: State, c: Call, known: map<string, Lines>): map<string, Lines> {
    var f := FetchFrom(cfg, c.env.answers, 0);
    if Contacts(cfg, s, c) && f.Got? && f.addrs != [] then known[c.service := f.addrs] else known
  }

  /** The disk works, and every address the registry lists can be stored on a line. */
  predicate Healthy(cfg: Config, c: Call) {
    && c.env.write.Written? && c.env.readable
    && (FetchFrom(cfg, c.env.answers, 0).Got? ==> AllGood(FetchFrom(cfg, c.env.answers, 0).addrs))
  }

  /** The disk holds the last good list of every service that has one, and memory nothing else. */
  ghost predicate Agrees(s: State, known: map<string, Lines>) {
    forall svc :: svc in known ==> AgreesOn(s, svc, known[svc])
  }

  ghost predicate AgreesOn(s: State, svc: string, addrs: Lines) {
    && addrs != [] && AllGood(addrs)
    && (svc in s.cache ==> s.cache[svc].addrs == addrs)
    && FileName(svc) in s.files && s.files[FileName(svc)] == Text(addrs)
  }

  lemma AgreesKept(cfg: Config, s: State, c: Call, known: map<string, Lines>)
    requires Agrees(s, known) && Healthy(cfg, c)
    ensures Agrees(Get(cfg, s, c.service, c.env).0, Learn(cfg, s, c, known))
  {
    var s', known' := Get(cfg, s, c.service, c.env).0, Learn(cfg, s, c, known);
    forall svc | svc in known' ensures AgreesOn(s', svc, known'[svc]) {
      NamesApart(c.service, svc);
      if svc != c.service {
        assert AgreesOn(s, svc, known[svc]);
      } else if svc in known {
        assert AgreesOn(s, svc, known[svc]);
        ReadText(known[svc]);
      }
    }
  }

  lemma {:induction false} RunAgrees(cfg: Config, s: State, calls: seq<Call>, known: map<string, Lines>)
    requires Agrees(s, known)
    requires forall i :: 0 <= i < |calls| ==> Healthy(cfg, calls[i])
    ensures Agrees(After(cfg, s, calls), Latest(cfg, s, calls, known))
    decreases |calls|
  {
    if calls != [] {
      AgreesKept(cfg, s, calls[0], known);
      RunAgrees(cfg, Get(cfg, s, calls[0].service, calls[0].env).0, calls[1..], Learn(cfg, s, calls[0], known));
    }
  }

  /** The lists that a disk holds. */
  ghost predicate OnDisk(files: map<string, string>, disk: map<string, Lines>) { Agrees(State(map[], files), disk) }

  /**
   * Cache agreement: for a client started on a disk that holds some lists, after any run, a call
   * returns the latest non-empty list fetched for its service, or the one the disk held if none was,
   * whatever has expired and however many fetches have failed, unless the call itself goes to the
   * registry and the fetch throws.
   */
  lemma CacheAgreement(cfg: Config, files: map<string, string>, disk: map<string, Lines>, calls: seq<Call>, c: Call)
    requires OnDisk(files, disk)
    requires forall i :: 0 <= i < |calls| ==> Healthy(cfg, calls[i])
    requires Healthy(cfg, c)
    ensures var s := After(cfg, State(map[], files), calls);
            var known := Learn(cfg, s, c, Latest(cfg, State(map[], files), calls, disk));
            c.service in known ==>
              Get(cfg, s, c.service, c.env).1 ==
              if Contacts(cfg, s, c) && FetchFrom(cfg, c.env.answers, 0).Thrown? then Threw
              else Returned(known[c.service])
  {
    RunAgrees(cfg, State(map[], files), calls, disk);
    var s := After(cfg, State(map[], files), calls);
    var before := Latest(cfg, State(map[], files), calls, disk);
    if c.service in before {
      assert AgreesOn(s, c.service, before[c.service]);
      ReadText(before[c.service]);
    }
  }

  /** What a run leaves on disk is what a client started afterwards finds there. */
  lemma RestartFindsLatest(cfg: Config, files: map<string, string>, disk: map<string, Lines>, calls: seq<Call>)
    requires OnDisk(files, disk)
    requires forall i :: 0 <= i < |calls| ==> Healthy(cfg, calls[i])
    ensures OnDisk(After(cfg, State(map[], files), calls).files, Latest(cfg, State(map[], files), calls, disk))
  {
    RunAgrees(cfg, State(map[], files), calls, disk);
    var s, known := After(cfg, State(map[], files), calls), Latest(cfg, State(map[], files), calls, disk);
    forall svc | svc in known ensures AgreesOn(State(map[], s.files), svc, known[svc]) {
      assert AgreesOn(s, svc, known[svc]);
    }
  }

  /** So agreement holds across a restart: a cold client facing a dead registry returns the last good list. */
  lemma ColdStart(cfg: Config, files: map<string, string>, disk: map<string, Lines>, calls: seq<Call>, service: string, dead: Env)
    requires OnDisk(files, disk)
    requires forall i :: 0 <= i < |calls| ==> Healthy(cfg, calls[i])
    requires FetchFrom(cfg, dead.answers, 0) == Got([]) && dead.readable && dead.write.Written?
    requires service in Latest(cfg, State(map[], files), calls, disk)
    ensures Get(cfg, State(map[], After(cfg, State(map[], files), calls).files), service, dead).1
         == Returned(Latest(cfg, State(map[], files), calls, disk)[service])
  {
    RestartFindsLatest(cfg, files, disk, calls);
    CacheAgreement(cfg, After(cfg, State(map[], files), calls).files, Latest(cfg, State(map[], files), calls, disk), [],
                   Call(service, dead));
  }

  /** With no usable file and no list to be had, the answer is empty, and that is cached too. */
  lemma NothingKnown(cfg: Config, s: State, service: string, env: Env)
    requires !Fresh(cfg, s, service, env.now) && FetchFrom(cfg, env.answers, 0) == Got([])
    requires FileName(service) !in s.files || !env.readable
    ensures Get(cfg, s, service, env)
         == (State(s.cache[service := CacheItem([], env.finished)], s.files), Returned([]))
  {
  }

  /**
   * Saving is atomic: unless the file system tears the file that is renamed, every service's file is
   * afterwards what it was, or the whole new list for the service saved; and no outcome touches
   * another service's file.
   */
  lemma SaveIsAtomic(files: map<string, string>, service: string, addrs: Lines, write: WriteOutcome, other: string)
    ensures var files' := Save(files, service, addrs, write);
            var f := FileName(other);
            && (other == service && write.Written? ==> f in files' && files'[f] == Text(addrs))
            && (other != service || write.CannotOpen? || write.CannotRename? ==>
                  (f in files' <==> f in files) && (f in files ==> files'[f] == files[f]))
  {
    NamesApart(service, other);
  }

  /** A fetched list outlives an expired cache and a dead registry exactly when all its addresses are good. */
  lemma AgreementExactly(cfg: Config, s: State, service: string, good: Env, dead: Env)
    requires !Fresh(cfg, s, service, good.now) && good.write.Written? && dead.readable
    requires FetchFrom(cfg, good.answers, 0).Got? && FetchFrom(cfg, good.answers, 0).addrs != []
    requires FetchFrom(cfg, dead.answers, 0) == Got([])
    requires !Fresh(cfg, Get(cfg, s, service, good).0, service, dead.now)
    ensures var addrs := FetchFrom(cfg, good.answers, 0).addrs;
            Get(cfg, Get(cfg, s, service, good).0, service, dead).1 == Returned(addrs) <==> AllGood(addrs)
  {
    DiskRoundTrip(FetchFrom(cfg, good.answers, 0).addrs);
  }

  /** An address with a newline comes back from the disk as something else. */
  lemma NewlineBreaksAgreement(files: map<string, string>, service: string)
    ensures var cfg := Config(30, 0);
            var good := Env(0, [Listed(["a\nb"])], 0, Written, true);
            var dead := Env(31 * SECOND, [], 31 * SECOND, Written, true);
            var s := Get(cfg, State(map[], files), service, good).0;
            Get(cfg, s, service, dead).1 == Returned(["a", "b"])
  {
    var text := Text(["a\nb"]);
    assert ["a\nb"][1..] == [];
    assert text == "a" + "\n" + ("b" + "\n" + "");
    ReadLine("", "a", "b" + "\n" + "");
    ReadLine("", "b", "");
    assert "" + "a" == "a" && "" + "b" == "b";
    assert ReadLines("", text) == ["a"] + (["b"] + []);
  }

  // ---- How often the registry is contacted

  datatype Round = Round(service: string, start: int, end: int, threw: bool)

  /** The fetch rounds of a run. */
  function Rounds(cfg: Config, s: State, calls: seq<Call>, log: seq<Round>): seq<Round>
    decreases |calls|
  {
    if calls == [] then log
    else Rounds(cfg, Get(cfg, s, calls[0].service, calls[0].env).0, calls[1..], Record(cfg, s, calls[0], log))
  }

  function Record(cfg: Config, s: State, c: Call, log: seq<Round>): seq<Round> {
    if Contacts(cfg, s, c)
    then log + [Round(c.service, c.env.now, c.env.finished, FetchFrom(cfg, c.env.answers, 0).Thrown?)]
    else log
  }

  /** Calls follow one another on a clock that does not go back. */
  predicate Monotone(calls: seq<Call>) {
    && (forall i :: 0 <= i < |calls| ==> calls[i].env.now <= calls[i].env.finished)
    && (forall i, j :: 0 <= i < j < |calls| ==> calls[i].env.finished <= calls[j].env.now)
  }

  /** A round that did not throw left a timestamp, and no later round came too soon after it. */
  ghost predicate Spaced(cfg: Config, log: seq<Round>) {
    forall i, j :: 0 <= i < j < |log| && log[i].service == log[j].service && !log[i].threw ==>
      log[j].start >= log[i].end + cfg.cacheExpire * SECOND
  }

  ghost predicate Stamped(s: State, log: seq<Round>, now: int) {
    && (forall i :: 0 <= i < |log| && !log[i].threw ==>
          log[i].service in s.cache && log[i].end <= s.cache[log[i].service].timestamp)
    && (forall svc :: svc in s.cache ==> s.cache[svc].timestamp <= now)
  }

  lemma RoundKept(cfg: Config, s: State, c: Call, log: seq<Round>)
    requires Spaced(cfg, log) && Stamped(s, log, c.env.now) && c.env.now <= c.env.finished
    ensures Spaced(cfg, Record(cfg, s, c, log))
    ensures Stamped(Get(cfg, s, c.service, c.env).0, Record(cfg, s, c, log), c.env.finished)
  {
  }

  lemma StampedLater(s: State, log: seq<Round>, now: int, later: int)
    requires Stamped(s, log, now) && now <= later
    ensures Stamped(s, log, later)
  {
  }

  lemma {:induction false} RunSpaced(cfg: Config, s: State, calls: seq<Call>, log: seq<Round>)
    requires Spaced(cfg, log) && Monotone(calls) && (calls != [] ==> Stamped(s, log, calls[0].env.now))
    ensures Spaced(cfg, Rounds(cfg, s, calls, log))
    decreases |calls|
  {
    if calls != [] {
      RoundKept(cfg, s, calls[0], log);
      var s', log' := Get(cfg, s, calls[0].service, calls[0].env).0, Record(cfg, s, calls[0], log);
      if |calls| > 1 {
        assert calls[0].env.finished <= calls[1].env.now;
        StampedLater(s', log', calls[0].env.finished, calls[1].env.now);
      }
      RunSpaced(cfg, s', calls[1..], log');
    }
  }

  /**
   * The contact bound: in every serialised run on a monotone clock, two fetch rounds for one service
   * are at least cacheExpire apart, from the end of the earlier to the start of the later, even when
   * the earlier one failed; only a round that threw is not counted.
   */
  lemma ContactBound(cfg: Config, files: map<string, string>, calls: seq<Call>)
    requires Monotone(calls)
    ensures Spaced(cfg, Rounds(cfg, State(map[], files), calls, []))
  {
    RunSpaced(cfg, State(map[], files), calls, []);
  }

  /** The answers that the retry loop passes over. */
  predicate Inconclusive(a: Answer) { a.NoAnswer? || a.NotJson? || a.NotArray? }

  /** The k-th answer is the first that is not passed over, and within the retries. */
  ghost predicate FirstConclusive(cfg: Config, answers: seq<Answer>, k: nat) {
    && k <= cfg.retryTimes && !Inconclusive(AnswerAt(answers, k))
    && forall i :: 0 <= i < k ==> Inconclusive(AnswerAt(answers, i))
  }

  lemma {:induction false} FetchesFrom(cfg: Config, answers: seq<Answer>, i: nat, k: nat)
    requires i <= k && FirstConclusive(cfg, answers, k)
    ensures FetchFrom(cfg, answers, i)
         == if AnswerAt(answers, k).Listed? then Got(AnswerAt(answers, k).addrs) else Thrown
    decreases k - i
  {
    if i < k {
      assert Inconclusive(AnswerAt(answers, i));
      FetchesFrom(cfg, answers, i + 1, k);
    }
  }

  lemma {:induction false} FetchesNothing(cfg: Config, answers: seq<Answer>, i: nat)
    requires forall k: nat :: i <= k <= cfg.retryTimes ==> Inconclusive(AnswerAt(answers, k))
    ensures FetchFrom(cfg, answers, i) == Got([])
    decreases cfg.retryTimes + 1 - i
  {
    if i <= cfg.retryTimes {
      assert Inconclusive(AnswerAt(answers, i));
      FetchesNothing(cfg, answers, i + 1);
    }
  }

  /** A fetch gives the first list that comes within the retries, unless something throws before it. */
  lemma FetchesExactly(cfg: Config, answers: seq<Answer>, k: nat)
    ensures FirstConclusive(cfg, answers, k) ==>
              FetchFrom(cfg, answers, 0) == if AnswerAt(answers, k).Listed? then Got(AnswerAt(answers, k).addrs) else Thrown
    ensures (forall i: nat :: i <= cfg.retryTimes ==> Inconclusive(AnswerAt(answers, i))) ==>
              FetchFrom(cfg, answers, 0) == Got([])
  {
    if FirstConclusive(cfg, answers, k) {
      FetchesFrom(cfg, answers, 0, k);
    }
    if forall i: nat :: i <= cfg.retryTimes ==> Inconclusive(AnswerAt(answers, i)) {
      FetchesNothing(cfg, answers, 0);
    }
  }

  /** The k-th answer throws: an array of other things, and nothing decisive before it. */
  predicate ThrowsAt(answers: seq<Answer>, k: nat) {
    AnswerAt(answers, k).WrongElements? && forall i :: 0 <= i < k ==> Inconclusive(AnswerAt(answers, i))
  }

  lemma {:induction false} ThrowsFrom(cfg: Config, answers: seq<Answer>, i: nat)
    requires forall k :: 0 <= k < i ==> Inconclusive(AnswerAt(answers, k))
    ensures FetchFrom(cfg, answers, i).Thrown? <==> exists k: nat :: i <= k <= cfg.retryTimes && ThrowsAt(answers, k)
    decreases cfg.retryTimes + 1 - i
  {
    if i <= cfg.retryTimes {
      if Decisive(AnswerAt(answers, i)) {
        assert AnswerAt(answers, i).WrongElements? ==> ThrowsAt(answers, i);
      } else {
        ThrowsFrom(cfg, answers, i + 1);
      }
    }
  }

  /** A round throws exactly when one of its answers is an array of other things and all before it are indecisive. */
  lemma ThrowsExactly(cfg: Config, answers: seq<Answer>)
    ensures FetchFrom(cfg, answers, 0).Thrown? <==> exists k: nat :: k <= cfg.retryTimes && ThrowsAt(answers, k)
  {
    ThrowsFrom(cfg, answers, 0);
  }

  /** A cached entry is used until it is cacheExpire old, and not from then on. */
  lemma ExpiresExactly(cfg: Config, s: State, c: Call)
    requires c.service in s.cache && s.cache[c.service].timestamp <= c.env.now
    ensures Contacts(cfg, s, c) <==> c.env.now >= s.cache[c.service].timestamp + cfg.cacheExpire * SECOND
  {
  }

  /**
   * After a round the registry is contacted again exactly when cacheExpire has passed since its end, or
   * one of its answers was an array of other things that came before any list and within the retries.
   */
  lemma ContactedAgainExactly(cfg: Config, s: State, c: Call, next: Call)
    requires Contacts(cfg, s, c) && next.service == c.service
    requires c.service in s.cache ==> s.cache[c.service].timestamp <= c.env.now
    requires c.env.now <= c.env.finished <= next.env.now
    ensures Contacts(cfg, Get(cfg, s, c.service, c.env).0, next)
            <==> || next.env.now >= c.env.finished + cfg.cacheExpire * SECOND
                 || exists k: nat :: k <= cfg.retryTimes && ThrowsAt(c.env.answers, k)
  {
    ThrowsExactly(cfg, c.env.answers);
    var s' := Get(cfg, s, c.service, c.env).0;
    if c.service in s'.cache {
      ExpiresExactly(cfg, s', next);
    }
    if c.service in s.cache {
      ExpiresExactly(cfg, s, c);
    }
  }

  /** Two rounds within a second of each other, with an expiry of thirty. */
  lemma ContactedTooSoon(files: map<string, string>, service: string)
    ensures var cfg := Config(30, 2);
            var calls := [Call(service, Env(0, [WrongElements], 0, Written, true)),
                          Call(service, Env(SECOND, [Listed(["a"])], SECOND, Written, true))];
            Monotone(calls) && Rounds(cfg, State(map[], files), calls, [])
              == [Round(service, 0, 0, true), Round(service, SECOND, SECOND, false)]
  {
    var cfg, s := Config(30, 2), State(map[], files);
    var a, b := Call(service, Env(0, [WrongElements], 0, Written, true)),
                Call(service, Env(SECOND, [Listed(["a"])], SECOND, Written, true));
    assert FetchFrom(cfg, a.env.answers, 0) == Thrown && FetchFrom(cfg, b.env.answers, 0) == Got(["a"]);
    assert [a, b][1..] == [b] && [b][1..] == [];
    var log := Record(cfg, s, a, []);
    assert log == [Round(service, 0, 0, true)];
    assert Rounds(cfg, s, [b], log) == Rounds(cfg, Get(cfg, s, service, b.env).0, [], Record(cfg, s, b, log));
  }
}
