/**
 The coordinator's identity files across restarts. A startup may find paths it cannot inspect or read, and
 its two writes may fail before or after creating the file. A crash leaves what a write that stopped leaves.
 */
module Identity {
  import opened Options
  import opened Results

  type Files = map<string, string>

  /** What the libraries decide: which certificate and key belong together (and its fingerprint), and a path's directory. */
  datatype Platform = Platform(parse: (string, string) -> Option<string>, dir: string -> string)

  /** An empty legacy path means that there is no such file. */
  datatype Paths = Paths(cert: string, key: string, legacyCert: string, legacyKey: string)

  datatype Pair = Pair(cert: string, key: string)

  datatype Fate = NotCreated | Stopped(n: nat) | Finished

  /** Everything outside the coordinator's control in one startup. */
  datatype Faults = Faults(
    hidden: set<string>,
    unreadable: set<string>,
    uncopyable: set<string>,
    noDirectory: bool,
    generated: Option<Pair>,
    keyWrite: Fate,
    certWrite: Fate)

  datatype IdentityError =
    | PathsRequired
    | CannotInspect(path: string)
    | CannotRead(path: string)
    | Partial
    | NotAPair
    | Generation
    | DifferentDirectories
    | NoDirectory
    | CannotWrite(path: string)
    | Legacy(reason: IdentityError)

  datatype Origin = Loaded | Migrated | Created

  datatype CoordinatorIdentity = CoordinatorIdentity(fingerprint: string, origin: Origin)

  // ---- what each operation does ----

  function Look(files: Files, hidden: set<string>, path: string): Result<bool, IdentityError> {
    if path in hidden then Err(CannotInspect(path)) else Ok(path in files)
  }

  function LookOptional(files: Files, hidden: set<string>, path: string): Result<bool, IdentityError> {
    if path == "" then Ok(false) else Look(files, hidden, path)
  }

  /** Whether a pair exists; one file without the other is an error. */
  function Both(cert: Result<bool, IdentityError>, key: Result<bool, IdentityError>): Result<bool, IdentityError> {
    if cert.Err? then cert
    else if key.Err? then key
    else if cert.value != key.value then Err(Partial)
    else cert
  }

  function Read(files: Files, unreadable: set<string>, path: string): Result<string, IdentityError> {
    if path in unreadable || path !in files then Err(CannotRead(path)) else Ok(files[path])
  }

  function ReadPair(files: Files, unreadable: set<string>, cert: string, key: string): Result<Pair, IdentityError> {
    var c, k := Read(files, unreadable, cert), Read(files, unreadable, key);
    if c.Err? then Err(c.error) else if k.Err? then Err(k.error) else Ok(Pair(c.value, k.value))
  }

  function Parse(platform: Platform, pair: Result<Pair, IdentityError>): Result<string, IdentityError> {
    if pair.Err? then Err(pair.error)
    else
      var fingerprint := platform.parse(pair.value.cert, pair.value.key);
      if fingerprint.None? then Err(NotAPair) else Ok(fingerprint.value)
  }

  function Tagged(r: Result<string, IdentityError>, origin: Origin): Result<CoordinatorIdentity, IdentityError> {
    if r.Err? then Err(r.error) else Ok(CoordinatorIdentity(r.value, origin))
  }

  /** What an exclusive create of path leaves, and whether it reported success. */
  function Writing(files: Files, path: string, data: string, fate: Fate): (Files, bool) {
    if path in files || fate.NotCreated? then (files, false)
    else if fate.Stopped? && fate.n <= |data| then (files[path := data[..fate.n]], false)
    else (files[path := data], fate.Finished?)
  }

  function Persisting(platform: Platform, files: Files, paths: Paths, pair: Pair, faults: Faults)
    : (Files, Option<IdentityError>)
  {
    if platform.dir(paths.cert) != platform.dir(paths.key) then (files, Some(DifferentDirectories))
    else if faults.noDirectory then (files, Some(NoDirectory))
    else
      var (keyed, keyDone) := Writing(files, paths.key, pair.key, faults.keyWrite);
      if !keyDone then (keyed, Some(CannotWrite(paths.key)))
      else
        var (done, certDone) := Writing(keyed, paths.cert, pair.cert, faults.certWrite);
        (done, if certDone then None else Some(CannotWrite(paths.cert)))
  }

  /** One startup: the files it leaves, and what it returns. */
  datatype Startup = Startup(files: Files, result: Result<CoordinatorIdentity, IdentityError>)

  function Migrating(platform: Platform, files: Files, paths: Paths, faults: Faults): Startup {
    var legacy := Parse(platform, ReadPair(files, faults.unreadable, paths.legacyCert, paths.legacyKey));
    var copy := ReadPair(files, faults.uncopyable, paths.legacyCert, paths.legacyKey);
    if legacy.Err? then Startup(files, Err(Legacy(legacy.error)))
    else if copy.Err? then Startup(files, Err(Legacy(copy.error)))
    else
      var (after, failure) := Persisting(platform, files, paths, copy.value, faults);
      Startup(after, if failure.Some? then Err(failure.value) else Tagged(legacy, Migrated))
  }

  function Creating(platform: Platform, files: Files, paths: Paths, faults: Faults): Startup {
    if faults.generated.None? then Startup(files, Err(Generation))
    else
      var (after, failure) := Persisting(platform, files, paths, faults.generated.value, faults);
      Startup(after,
              if failure.Some? then Err(failure.value)
              else Tagged(Parse(platform, ReadPair(after, faults.unreadable, paths.cert, paths.key)), Created))
  }

  function Start(platform: Platform, files: Files, paths: Paths, faults: Faults): Startup {
    if paths.cert == "" || paths.key == "" then Startup(files, Err(PathsRequired))
    else
      var current := Both(Look(files, faults.hidden, paths.cert), Look(files, faults.hidden, paths.key));
      if current.Err? then Startup(files, Err(current.error))
      else if current.value then
        Startup(files, Tagged(Parse(platform, ReadPair(files, faults.unreadable, paths.cert, paths.key)), Loaded))
      else
        var legacy := Both(LookOptional(files, faults.hidden, paths.legacyCert),
                           LookOptional(files, faults.hidden, paths.legacyKey));
        if legacy.Err? then Startup(files, Err(if legacy.error == Partial then Legacy(Partial) else legacy.error))
        else if legacy.value then Migrating(platform, files, paths, faults)
        else Creating(platform, files, paths, faults)
  }

  // ---- the code's step-by-step form ----

  class FileStore {
    var files: Files

    method FileExists(path: string, hidden: set<string>) returns (r: Result<bool, IdentityError>)
      ensures r == Look(files, hidden, path)
    {
      if path in hidden {
        return Err(CannotInspect(path));
      }
      return Ok(path in files);
    }

    method OptionalFileExists(path: string, hidden: set<string>) returns (r: Result<bool, IdentityError>)
      ensures r == LookOptional(files, hidden, path)
    {
      if path == "" {
        return Ok(false);
      }
      r := FileExists(path, hidden);
    }

    method ReadFile(path: string, unreadable: set<string>) returns (r: Result<string, IdentityError>)
      ensures r == Read(files, unreadable, path)
    {
      if path in unreadable || path !in files {
        return Err(CannotRead(path));
      }
      return Ok(files[path]);
    }

    method LoadIdentity(platform: Platform, cert: string, key: string, unreadable: set<string>)
      returns (r: Result<string, IdentityError>)
      ensures r == Parse(platform, ReadPair(files, unreadable, cert, key))
    {
      var certPEM := ReadFile(cert, unreadable);
      if certPEM.Err? {
        return Err(certPEM.error);
      }
      var keyPEM := ReadFile(key, unreadable);
      if keyPEM.Err? {
        return Err(keyPEM.error);
      }
      var fingerprint := platform.parse(certPEM.value, keyPEM.value);
      if fingerprint.None? {
        return Err(NotAPair);
      }
      return Ok(fingerprint.value);
    }

    /** O_EXCL: an existing file is never opened. */
    method WriteExclusive(path: string, data: string, fate: Fate) returns (ok: bool)
      modifies this
      ensures (files, ok) == Writing(old(files), path, data, fate)
    {
      if path in files || fate.NotCreated? {
        return false;
      }
      files := files[path := ""];
      var n := if fate.Stopped? && fate.n <= |data| then fate.n else |data|;
      files := files[path := data[..n]];
      assert data[..|data|] == data;
      assert files == old(files)[path := data[..n]];
      return fate.Finished?;
    }

    method PersistIdentity(platform: Platform, paths: Paths, pair: Pair, faults: Faults)
      returns (failure: Option<IdentityError>)
      modifies this
      ensures (files, failure) == Persisting(platform, old(files), paths, pair, faults)
    {
      if platform.dir(paths.cert) != platform.dir(paths.key) {
        return Some(DifferentDirectories);
      }
      if faults.noDirectory {
        return Some(NoDirectory);
      }
      var ok := WriteExclusive(paths.key, pair.key, faults.keyWrite);
      if !ok {
        return Some(CannotWrite(paths.key));
      }
      ok := WriteExclusive(paths.cert, pair.cert, faults.certWrite);
      if !ok {
        return Some(CannotWrite(paths.cert));
      }
      return None;
    }

    method Migrate(platform: Platform, paths: Paths, faults: Faults) returns (r: Result<CoordinatorIdentity, IdentityError>)
      modifies this
      ensures Startup(files, r) == Migrating(platform, old(files), paths, faults)
    {
      var legacy := LoadIdentity(platform, paths.legacyCert, paths.legacyKey, faults.unreadable);
      if legacy.Err? {
        return Err(Legacy(legacy.error));
      }
      var certPEM := ReadFile(paths.legacyCert, faults.uncopyable);
      if certPEM.Err? {
        return Err(Legacy(certPEM.error));
      }
      var keyPEM := ReadFile(paths.legacyKey, faults.uncopyable);
      if keyPEM.Err? {
        return Err(Legacy(keyPEM.error));
      }
      var failure := PersistIdentity(platform, paths, Pair(certPEM.value, keyPEM.value), faults);
      if failure.Some? {
        return Err(failure.value);
      }
      return Ok(CoordinatorIdentity(legacy.value, Migrated));
    }

    /** LoadOrCreateCoordinatorIdentity */
    method LoadOrCreate(platform: Platform, paths: Paths, faults: Faults)
      returns (r: Result<CoordinatorIdentity, IdentityError>)
      modifies this
      ensures Startup(files, r) == Start(platform, old(files), paths, faults)
    {
      if paths.cert == "" || paths.key == "" {
        return Err(PathsRequired);
      }
      var certExists := FileExists(paths.cert, faults.hidden);
      if certExists.Err? {
        return Err(certExists.error);
      }
      var keyExists := FileExists(paths.key, faults.hidden);
      if keyExists.Err? {
        return Err(keyExists.error);
      }
      if certExists.value != keyExists.value {
        return Err(Partial);
      }
      if certExists.value {
        var loaded := LoadIdentity(platform, paths.cert, paths.key, faults.unreadable);
        return Tagged(loaded, Loaded);
      }
      var legacyCertExists := OptionalFileExists(paths.legacyCert, faults.hidden);
      if legacyCertExists.Err? {
        return Err(legacyCertExists.error);
      }
      var legacyKeyExists := OptionalFileExists(paths.legacyKey, faults.hidden);
      if legacyKeyExists.Err? {
        return Err(legacyKeyExists.error);
      }
      if legacyCertExists.value != legacyKeyExists.value {
        return Err(Legacy(Partial));
      }
      if legacyCertExists.value {
        r := Migrate(platform, paths, faults);
        return;
      }
      if faults.generated.None? {
        return Err(Generation);
      }
      var failure := PersistIdentity(platform, paths, faults.generated.value, faults);
      if failure.Some? {
        return Err(failure.value);
      }
      var loaded := LoadIdentity(platform, paths.cert, paths.key, faults.unreadable);
      return Tagged(loaded, Created);
    }
  }

  // ---- one startup ----

  ghost predicate Extends(before: Files, after: Files, paths: Paths) {
    && (forall p :: p in before ==> p in after && after[p] == before[p])
    && (forall p :: p in after && p !in before ==> p == paths.cert || p == paths.key)
  }

  /** Nothing that exists is overwritten or removed, and nothing but the two identity files is created. */
  lemma StartExtends(platform: Platform, files: Files, paths: Paths, faults: Faults)
    ensures Extends(files, Start(platform, files, paths, faults).files, paths)
  {
  }

  predicate HasPair(files: Files, paths: Paths) {
    paths.cert in files && paths.key in files
  }

  predicate IsPartial(files: Files, paths: Paths) {
    (paths.cert in files) != (paths.key in files)
  }

  function PairOnDisk(platform: Platform, files: Files, paths: Paths): Option<string>
    requires HasPair(files, paths)
  {
    platform.parse(files[paths.cert], files[paths.key])
  }

  /** However it was come by, the fingerprint returned is the one of the pair that is now on disk. */
  lemma SuccessIsOnDisk(platform: Platform, files: Files, paths: Paths, faults: Faults)
    requires Start(platform, files, paths, faults).result.Ok?
    ensures var s := Start(platform, files, paths, faults);
            && HasPair(s.files, paths)
            && PairOnDisk(platform, s.files, paths) == Some(s.result.value.fingerprint)
  {
  }

  /** A pair on disk is only ever loaded, and half a pair only ever refused; neither is touched. */
  lemma ExistingFilesDecide(platform: Platform, files: Files, paths: Paths, faults: Faults)
    ensures HasPair(files, paths) || IsPartial(files, paths) ==> Start(platform, files, paths, faults).files == files
    ensures IsPartial(files, paths) ==> Start(platform, files, paths, faults).result.Err?
    ensures HasPair(files, paths) && Start(platform, files, paths, faults).result.Ok? ==>
              Some(Start(platform, files, paths, faults).result.value.fingerprint) == PairOnDisk(platform, files, paths)
  {
  }

  predicate Undisturbed(faults: Faults) {
    && faults.hidden == {} && faults.unreadable == {} && faults.uncopyable == {} && !faults.noDirectory
    && faults.keyWrite == Finished && faults.certWrite == Finished
  }

  predicate LegacyExists(files: Files, path: string) {
    path != "" && path in files
  }

  /** The fingerprint that a startup yields if nothing fails around it, or None if it cannot succeed. */
  function Expected(platform: Platform, files: Files, paths: Paths, generated: Option<Pair>): Option<string> {
    if paths.cert == "" || paths.key == "" || IsPartial(files, paths) then None
    else if HasPair(files, paths) then PairOnDisk(platform, files, paths)
    else if paths.cert == paths.key || platform.dir(paths.cert) != platform.dir(paths.key) then None
    else if LegacyExists(files, paths.legacyCert) != LegacyExists(files, paths.legacyKey) then None
    else if LegacyExists(files, paths.legacyCert) then platform.parse(files[paths.legacyCert], files[paths.legacyKey])
    else if generated.None? then None
    else platform.parse(generated.value.cert, generated.value.key)
  }

  /** An undisturbed startup succeeds exactly if there is something to expect, and with that. */
  lemma UndisturbedStart(platform: Platform, files: Files, paths: Paths, faults: Faults)
    requires Undisturbed(faults)
    ensures var result := Start(platform, files, paths, faults).result;
      && (result.Ok? <==> Expected(platform, files, paths, faults.generated).Some?)
      && (result.Ok? ==> Some(result.value.fingerprint) == Expected(platform, files, paths, faults.generated))
      && (result.Ok? ==>
            result.value.origin == if HasPair(files, paths) then Loaded
                                   else if LegacyExists(files, paths.legacyCert) then Migrated
                                   else Created)
  {
  }

  /** Why a startup over existing files fails, the first reason that applies. */
  lemma WhyLoadingFails(platform: Platform, files: Files, paths: Paths, faults: Faults)
    ensures paths.cert == "" || paths.key == "" ==> Start(platform, files, paths, faults) == Startup(files, Err(PathsRequired))
    ensures var result := Start(platform, files, paths, faults).result;
            var named := paths.cert != "" && paths.key != "";
            var seen := named && paths.cert !in faults.hidden && paths.key !in faults.hidden;
      && (named && paths.cert in faults.hidden ==> result == Err(CannotInspect(paths.cert)))
      && (named && paths.cert !in faults.hidden && paths.key in faults.hidden ==> result == Err(CannotInspect(paths.key)))
      && (seen && IsPartial(files, paths) ==> result == Err(Partial))
      && (seen && HasPair(files, paths) ==>
            && (paths.cert in faults.unreadable ==> result == Err(CannotRead(paths.cert)))
            && (paths.cert !in faults.unreadable && paths.key in faults.unreadable ==> result == Err(CannotRead(paths.key)))
            && (paths.cert !in faults.unreadable && paths.key !in faults.unreadable ==>
                  result == match PairOnDisk(platform, files, paths)
                            case None => Err(NotAPair)
                            case Some(fingerprint) => Ok(CoordinatorIdentity(fingerprint, Loaded))))
  {
  }

  /** The file is absent, or holds the data if all of it was written, or else a beginning of it. */
  predicate Left(files: Files, path: string, data: string, fate: Fate) {
    && (fate.NotCreated? ==> path !in files)
    && (fate.Finished? ==> path in files && files[path] == data)
    && (fate.Stopped? ==>
          path in files && files[path] <= data && (fate.n <= |data| ==> |files[path]| == fate.n))
  }

  /** What installing a pair leaves and answers where there is none: the key first, and the certificate only after
      the whole key was written. */
  lemma InstallContract(platform: Platform, files: Files, paths: Paths, pair: Pair, faults: Faults)
    requires paths.cert !in files && paths.key !in files && paths.cert != paths.key
    ensures var (after, failure) := Persisting(platform, files, paths, pair, faults);
            var together := platform.dir(paths.cert) == platform.dir(paths.key);
      && (!together ==> failure == Some(DifferentDirectories) && after == files)
      && (together && faults.noDirectory ==> failure == Some(NoDirectory) && after == files)
      && (together && !faults.noDirectory ==>
            && Left(after, paths.key, pair.key, faults.keyWrite)
            && (!faults.keyWrite.Finished? ==> failure == Some(CannotWrite(paths.key)) && paths.cert !in after)
            && (faults.keyWrite.Finished? ==>
                  && Left(after, paths.cert, pair.cert, faults.certWrite)
                  && (failure.None? <==> faults.certWrite.Finished?)
                  && (failure.Some? ==> failure.value == CannotWrite(paths.cert))))
  {
  }

  /** A legacy path that cannot be inspected ends a startup over empty paths, the certificate's first. */
  lemma WhyLegacyIsNotSeen(platform: Platform, files: Files, paths: Paths, faults: Faults)
    requires StartsFresh(files, paths, faults.(hidden := {}))
    requires paths.cert !in faults.hidden && paths.key !in faults.hidden
    ensures var s := Start(platform, files, paths, faults);
            var certSeen := paths.legacyCert == "" || paths.legacyCert !in faults.hidden;
      && (!certSeen ==> s == Startup(files, Err(CannotInspect(paths.legacyCert))))
      && (certSeen && paths.legacyKey != "" && paths.legacyKey in faults.hidden ==>
            s == Startup(files, Err(CannotInspect(paths.legacyKey))))
  {
  }

  /** Nothing is written yet, and every path can be inspected. */
  predicate StartsFresh(files: Files, paths: Paths, faults: Faults) {
    && paths.cert != "" && paths.key != "" && paths.cert !in files && paths.key !in files
    && faults.hidden == {}
  }

  /** What a startup over empty paths does with a legacy identity, the first reason to fail that applies. */
  lemma MigrationContract(platform: Platform, files: Files, paths: Paths, faults: Faults)
    requires StartsFresh(files, paths, faults)
    requires LegacyExists(files, paths.legacyCert) || LegacyExists(files, paths.legacyKey)
    ensures var s := Start(platform, files, paths, faults);
            var both := LegacyExists(files, paths.legacyCert) && LegacyExists(files, paths.legacyKey);
            var refused := faults.unreadable + faults.uncopyable;
      && (!both ==> s == Startup(files, Err(Legacy(Partial))))
      && (both && paths.legacyCert in faults.unreadable ==> s == Startup(files, Err(Legacy(CannotRead(paths.legacyCert)))))
      && (both && paths.legacyCert !in faults.unreadable && paths.legacyKey in faults.unreadable ==>
            s == Startup(files, Err(Legacy(CannotRead(paths.legacyKey)))))
      && (both && paths.legacyCert !in faults.unreadable && paths.legacyKey !in faults.unreadable ==>
            && var fingerprint := platform.parse(files[paths.legacyCert], files[paths.legacyKey]);
            && (fingerprint.None? ==> s == Startup(files, Err(Legacy(NotAPair))))
            && (fingerprint.Some? && paths.legacyCert in faults.uncopyable ==>
                  s == Startup(files, Err(Legacy(CannotRead(paths.legacyCert)))))
            && (fingerprint.Some? && paths.legacyCert !in faults.uncopyable && paths.legacyKey in faults.uncopyable ==>
                  s == Startup(files, Err(Legacy(CannotRead(paths.legacyKey)))))
            && (fingerprint.Some? && paths.legacyCert !in refused && paths.legacyKey !in refused ==>
                  Installs(platform, files, paths, Pair(files[paths.legacyCert], files[paths.legacyKey]), faults, s,
                           Ok(CoordinatorIdentity(fingerprint.value, Migrated)))))
  {
  }

  /** The startup installs the pair, and if nothing fails on the way its result is `done`. */
  predicate Installs(platform: Platform, files: Files, paths: Paths, pair: Pair, faults: Faults, s: Startup,
                     done: Result<CoordinatorIdentity, IdentityError>)
  {
    var (after, failure) := Persisting(platform, files, paths, pair, faults);
    s == Startup(after, if failure.Some? then Err(failure.value) else done)
  }

  /** And without one: the generated pair is installed, then read back. */
  lemma CreationContract(platform: Platform, files: Files, paths: Paths, faults: Faults)
    requires StartsFresh(files, paths, faults) && paths.cert != paths.key
    requires !LegacyExists(files, paths.legacyCert) && !LegacyExists(files, paths.legacyKey)
    ensures var s := Start(platform, files, paths, faults);
      && (faults.generated.None? ==> s == Startup(files, Err(Generation)))
      && (faults.generated.Some? ==>
            var pair := faults.generated.value;
            Installs(platform, files, paths, pair, faults, s,
                     if paths.cert in faults.unreadable then Err(CannotRead(paths.cert))
                     else if paths.key in faults.unreadable then Err(CannotRead(paths.key))
                     else match platform.parse(pair.cert, pair.key)
                          case None => Err(NotAPair)
                          case Some(fingerprint) => Ok(CoordinatorIdentity(fingerprint, Created))))
  {
  }

  // ---- any sequence of startups ----

  function After(platform: Platform, files: Files, paths: Paths, runs: seq<Faults>): Files {
    if runs == [] then files
    else Start(platform, After(platform, files, paths, runs[..|runs| - 1]), paths, runs[|runs| - 1]).files
  }

  function ResultOf(platform: Platform, files: Files, paths: Paths, runs: seq<Faults>, i: nat)
    : Result<CoordinatorIdentity, IdentityError>
    requires i < |runs|
  {
    Start(platform, After(platform, files, paths, runs[..i]), paths, runs[i]).result
  }

  lemma AfterNext(platform: Platform, files: Files, paths: Paths, runs: seq<Faults>, i: nat)
    requires i < |runs|
    ensures After(platform, files, paths, runs[..i + 1])
         == Start(platform, After(platform, files, paths, runs[..i]), paths, runs[i]).files
  {
    assert runs[..i + 1][..i] == runs[..i];
  }

  /** No sequence of startups overwrites or removes a file. */
  lemma {:induction false} FilesOnlyGrow(platform: Platform, files: Files, paths: Paths, runs: seq<Faults>)
    ensures Extends(files, After(platform, files, paths, runs), paths)
    decreases |runs|
  {
    if runs == [] {
    } else {
      FilesOnlyGrow(platform, files, paths, runs[..|runs| - 1]);
      StartExtends(platform, After(platform, files, paths, runs[..|runs| - 1]), paths, runs[|runs| - 1]);
    }
  }

  /** Once there is a pair on disk, or half of one, no startup changes the files again. */
  lemma {:induction false} SettledFilesStay(platform: Platform, files: Files, paths: Paths, runs: seq<Faults>, i: nat, j: nat)
    requires i <= j <= |runs|
    requires var f := After(platform, files, paths, runs[..i]); HasPair(f, paths) || IsPartial(f, paths)
    ensures After(platform, files, paths, runs[..j]) == After(platform, files, paths, runs[..i])
    decreases j - i
  {
    hide Start;
    if i == j {
    } else {
      SettledFilesStay(platform, files, paths, runs, i, j - 1);
      AfterNext(platform, files, paths, runs, j - 1);
      ExistingFilesDecide(platform, After(platform, files, paths, runs[..j - 1]), paths, runs[j - 1]);
    }
  }

  /** Every startup that succeeds returns the same fingerprint, whatever fails or crashes in between. */
  lemma IdentityIsStable(platform: Platform, files: Files, paths: Paths, runs: seq<Faults>, i: nat, j: nat)
    requires i <= j < |runs|
    requires ResultOf(platform, files, paths, runs, i).Ok? && ResultOf(platform, files, paths, runs, j).Ok?
    ensures ResultOf(platform, files, paths, runs, i).value.fingerprint
         == ResultOf(platform, files, paths, runs, j).value.fingerprint
  {
    if i < j {
      SuccessIsOnDisk(platform, After(platform, files, paths, runs[..i]), paths, runs[i]);
      AfterNext(platform, files, paths, runs, i);
      SettledFilesStay(platform, files, paths, runs, i + 1, j);
      ExistingFilesDecide(platform, After(platform, files, paths, runs[..j]), paths, runs[j]);
    }
  }

  /** After one success, a startup that can inspect and read the two files succeeds, by loading them. */
  lemma SuccessIsDurable(platform: Platform, files: Files, paths: Paths, runs: seq<Faults>, i: nat, j: nat)
    requires i < j < |runs| && ResultOf(platform, files, paths, runs, i).Ok?
    requires paths.cert !in runs[j].hidden + runs[j].unreadable && paths.key !in runs[j].hidden + runs[j].unreadable
    ensures ResultOf(platform, files, paths, runs, j)
            == Ok(CoordinatorIdentity(ResultOf(platform, files, paths, runs, i).value.fingerprint, Loaded))
  {
    SuccessIsOnDisk(platform, After(platform, files, paths, runs[..i]), paths, runs[i]);
    AfterNext(platform, files, paths, runs, i);
    SettledFilesStay(platform, files, paths, runs, i + 1, j);
  }

  /** One undisturbed startup settles the identity for good: whatever happens later, every startup that can
      inspect and read the two files loads the fingerprint that was to be expected of the first. */
  lemma UndisturbedStartSettles(platform: Platform, files: Files, paths: Paths, runs: seq<Faults>, j: nat)
    requires 0 < j < |runs| && Undisturbed(runs[0]) && Expected(platform, files, paths, runs[0].generated).Some?
    requires paths.cert !in runs[j].hidden + runs[j].unreadable && paths.key !in runs[j].hidden + runs[j].unreadable
    ensures ResultOf(platform, files, paths, runs, j)
            == Ok(CoordinatorIdentity(Expected(platform, files, paths, runs[0].generated).value, Loaded))
  {
    assert runs[..0] == [];
    UndisturbedStart(platform, files, paths, runs[0]);
    SuccessIsDurable(platform, files, paths, runs, 0, j);
  }

  /** Half an identity fails every later startup; it is never completed or replaced. */
  lemma PartialIsPermanent(platform: Platform, files: Files, paths: Paths, runs: seq<Faults>, i: nat, j: nat)
    requires i <= j < |runs| && IsPartial(After(platform, files, paths, runs[..i]), paths)
    ensures ResultOf(platform, files, paths, runs, j).Err?
    ensures After(platform, files, paths, runs) == After(platform, files, paths, runs[..i])
  {
    SettledFilesStay(platform, files, paths, runs, i, j);
    ExistingFilesDecide(platform, After(platform, files, paths, runs[..j]), paths, runs[j]);
    SettledFilesStay(platform, files, paths, runs, i, |runs|);
    assert runs[..|runs|] == runs;
  }

  // ---- a legacy identity survives its migration ----

  /** No beginning of this certificate is a different certificate. */
  ghost predicate NoOtherPrefix(platform: Platform, pair: Pair, fingerprint: string) {
    forall n :: 0 <= n <= |pair.cert| ==>
      platform.parse(pair.cert[..n], pair.key) == None || platform.parse(pair.cert[..n], pair.key) == Some(fingerprint)
  }

  ghost predicate LegacyIs(files: Files, paths: Paths, pair: Pair) {
    && LegacyExists(files, paths.legacyCert) && LegacyExists(files, paths.legacyKey)
    && files[paths.legacyCert] == pair.cert && files[paths.legacyKey] == pair.key
  }

  /** Not begun, stopped at the key, or stopped at the certificate after the whole key. */
  ghost predicate Copying(files: Files, paths: Paths, pair: Pair) {
    || (paths.cert !in files && paths.key !in files)
    || (paths.cert !in files && paths.key in files)
    || (HasPair(files, paths) && files[paths.key] == pair.key && files[paths.cert] <= pair.cert)
  }

  lemma CopyingGoesOn(platform: Platform, files: Files, paths: Paths, pair: Pair, faults: Faults)
    requires paths.cert != paths.key && LegacyIs(files, paths, pair) && Copying(files, paths, pair)
    ensures var after := Start(platform, files, paths, faults).files;
            LegacyIs(after, paths, pair) && Copying(after, paths, pair)
  {
    StartExtends(platform, files, paths, faults);
  }

  lemma {:induction false} CopyingThroughout(platform: Platform, files: Files, paths: Paths, pair: Pair, runs: seq<Faults>)
    requires paths.cert != paths.key && LegacyIs(files, paths, pair) && Copying(files, paths, pair)
    ensures var after := After(platform, files, paths, runs);
            LegacyIs(after, paths, pair) && Copying(after, paths, pair)
    decreases |runs|
  {
    if runs == [] {
    } else {
      CopyingThroughout(platform, files, paths, pair, runs[..|runs| - 1]);
      CopyingGoesOn(platform, After(platform, files, paths, runs[..|runs| - 1]), paths, pair, runs[|runs| - 1]);
    }
  }

  /** With a legacy identity and no current one to begin with, every success is that identity. */
  lemma MigrationKeepsIdentity(platform: Platform, files: Files, paths: Paths, pair: Pair, fingerprint: string,
                               runs: seq<Faults>, i: nat)
    requires paths.cert != paths.key && paths.cert !in files && paths.key !in files
    requires LegacyIs(files, paths, pair) && NoOtherPrefix(platform, pair, fingerprint)
    requires i < |runs| && ResultOf(platform, files, paths, runs, i).Ok?
    ensures ResultOf(platform, files, paths, runs, i).value.fingerprint == fingerprint
  {
    var before := After(platform, files, paths, runs[..i]);
    CopyingThroughout(platform, files, paths, pair, runs[..i]);
    CopyingGoesOn(platform, before, paths, pair, runs[i]);
    SuccessIsOnDisk(platform, before, paths, runs[i]);
    var after := Start(platform, before, paths, runs[i]).files;
    var n := |after[paths.cert]|;
    assert after[paths.cert] == pair.cert[..n];
  }
}
