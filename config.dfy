/** The command-line configuration of kubent (package `config`): the record
    that flag parsing fills in, and the checks run on it once parsing is
    done, so that a bad output format, output file or additional kind is
    reported before any collector or judge runs. */
module Config {
  import opened Wrappers
  import opened GoStrings

  // ---------------------------------------------------------------------
  // Data model
  // ---------------------------------------------------------------------

  /** The accepted values of `--output`. */
  const JSON: GoString := "json"
  const TEXT: GoString := "text"
  const CSV: GoString := "csv"

  /** The value of `--output-file` that means standard output. */
  const STDOUT: GoString := "-"

  /** A version parsed from `--target-version`, kept as the text it was
      parsed from; its parsing and ordering belong to the judge. */
  datatype SemVer = SemVer(text: GoString)

  /** `judge.Version`: a wrapper whose inner version stays `nil` until the
      `--target-version` flag sets it. */
  datatype JudgeVersion = JudgeVersion(version: Option<SemVer>)

  /** `ZeroLogLevel`: a zerolog level number. */
  datatype ZeroLogLevel = ZeroLogLevel(level: int)

  /** zerolog's `InfoLevel`, the level configured before flags are read. */
  const INFO_LEVEL := ZeroLogLevel(1)

  /** `Config`. `targetVersion` is the pointer field `TargetVersion`: `None`
      is `nil`. */
  datatype Config = Config(
    additionalKinds: seq<GoString>,
    additionalAnnotations: seq<GoString>,
    cluster: bool,
    context: GoString,
    exitError: bool,
    filenames: seq<GoString>,
    helm3: bool,
    kubeconfig: GoString,
    logLevel: ZeroLogLevel,
    output: GoString,
    outputFile: GoString,
    targetVersion: Option<JudgeVersion>,
    kubentVersion: bool)

  /** Why an `--additional-kind` entry was refused: the entry has fewer than
      four dot-separated parts, or its Kind part is not capitalised. */
  datatype KindError = NotFullForm(entry: GoString) | NotCapitalized(kind: GoString)

  /** Why `--output-file` was refused. */
  datatype OutputFileError = EmptyOutputFileName | OutputDirectoryMissing(dir: GoString)

  /** The errors `NewFromFlags` returns, one per validated argument. */
  datatype Error =
    | InvalidOutput(output: GoString)
    | InvalidOutputFile(fileError: OutputFileError)
    | InvalidAdditionalKinds(kindError: KindError)

  /** The host as `validateOutputFile` sees it. `dir` is `filepath.Dir`,
      which only edits the path text but follows the host's path syntax.
      `notExist(d)` is the one filesystem query: it holds when `os.Stat(d)`
      fails with an error that `errors.Is` matches to `fs.ErrNotExist` (a
      stat that fails for another reason does not refuse the file). */
  datatype Host = Host(dir: GoString -> GoString, notExist: GoString -> bool)

  /** What the configuration holds after `flag.Parse` on an empty command
      line: the initial record plus every flag's default. `kubeconfigEnv` is
      the value of the `KUBECONFIG` environment variable. */
  function Defaults(kubeconfigEnv: GoString): (c: Config)
    ensures c.output == TEXT && IsValidOutputFormat(c.output)
    ensures c.outputFile == STDOUT && c.additionalKinds == []
    ensures c.cluster && c.helm3 && !c.exitError && !c.kubentVersion
    ensures c.logLevel == INFO_LEVEL && c.kubeconfig == kubeconfigEnv
    ensures c.targetVersion == Some(JudgeVersion(None))
  {
    Config(
      additionalKinds := [],
      additionalAnnotations := [],
      cluster := true,
      context := [],
      exitError := false,
      filenames := [],
      helm3 := true,
      kubeconfig := kubeconfigEnv,
      logLevel := INFO_LEVEL,
      output := TEXT,
      outputFile := STDOUT,
      targetVersion := Some(JudgeVersion(None)),
      kubentVersion := false)
  }

  // ---------------------------------------------------------------------
  // --output
  // ---------------------------------------------------------------------

  /** `isValidOutputFormat`: the format is one of the three constants,
      compared byte for byte. */
  function IsValidOutputFormat(format: GoString): (ok: bool)
    ensures ok <==> format in {JSON, TEXT, CSV}
  {
    if format == JSON then true
    else if format == TEXT then true
    else if format == CSV then true
    else false
  }

  /** The comparison is case-sensitive: a format with any upper-case ASCII
      letter is refused, so "JSON" and "Text" are not formats. */
  lemma OutputFormatIsCaseSensitive(format: GoString, i: nat)
    requires i < |format| && 'A' <= format[i] <= 'Z'
    ensures !IsValidOutputFormat(format)
  {
  }

  // ---------------------------------------------------------------------
  // --output-file
  // ---------------------------------------------------------------------

  /** `validateOutputFile`: the empty name is refused whatever the
      filesystem holds, "-" is accepted without looking at the filesystem,
      and any other name is refused exactly when its directory does not
      exist. */
  function ValidateOutputFile(name: GoString, host: Host): (err: Option<OutputFileError>)
    ensures name == [] ==> err == Some(EmptyOutputFileName)
    ensures name == STDOUT ==> err == None
    ensures name != [] && name != STDOUT ==>
      (err == None <==> !host.notExist(host.dir(name))) &&
      (err != None ==> err == Some(OutputDirectoryMissing(host.dir(name))))
  {
    if name == [] then Some(EmptyOutputFileName)
    else if name != STDOUT then
      var dir := host.dir(name);
      if host.notExist(dir) then Some(OutputDirectoryMissing(dir)) else None
    else None
  }

  /** Whether "-" and "" are accepted does not depend on the filesystem: the
      first two ensures of `ValidateOutputFile`, written for two hosts. */
  lemma OutputFileStdoutAndEmptyIgnoreHost(h1: Host, h2: Host)
    ensures ValidateOutputFile(STDOUT, h1) == ValidateOutputFile(STDOUT, h2) == None
    ensures ValidateOutputFile([], h1) == ValidateOutputFile([], h2) == Some(EmptyOutputFileName)
  {
  }

  // ---------------------------------------------------------------------
  // --additional-kind
  // ---------------------------------------------------------------------

  /** The Kind part of an additional-kind entry: the text before its first
      dot. */
  function KindSegment(entry: GoString): (kind: GoString)
    ensures kind <= entry && DOT !in kind
    ensures |kind| == |entry| || entry[|kind|] == DOT
  {
    Split(entry, DOT)[0]
  }

  /** The acceptance condition for one entry, stated on its bytes: at least
      three dots (so at least four parts, any further dots belonging to the
      group), and a first byte that is not a dot and that `unicode.IsUpper`
      accepts as a code point. */
  predicate EntryValid(entry: GoString)
  {
    Count(entry, DOT) >= 3 && entry[0] != DOT && IsUpperByte(entry[0])
  }

  /** The check one entry gets in the loop of `validateAdditionalResources`,
      with an empty Kind part refused as not capitalised (see
      `ValidateAdditionalResourcesAsWritten` for what the Go code does
      instead). */
  function EntryError(entry: GoString): (err: Option<KindError>)
    ensures err == None <==> EntryValid(entry)
    ensures Count(entry, DOT) < 3 ==> err == Some(NotFullForm(entry))
    ensures Count(entry, DOT) >= 3 && !EntryValid(entry) ==>
      err == Some(NotCapitalized(KindSegment(entry)))
    ensures err == Some(NotCapitalized([])) <==> Count(entry, DOT) >= 3 && entry[0] == DOT
  {
    var parts := Split(entry, DOT);
    if |parts| < 4 then Some(NotFullForm(entry))
    else if |parts[0]| == 0 || !IsUpperByte(parts[0][0]) then Some(NotCapitalized(parts[0]))
    else None
  }

  /** For an entry written as its dot-free parts joined by dots, the
      condition of the Go code: at least four parts and a Kind part whose
      first byte is upper case. */
  lemma JoinedEntryAccepted(parts: seq<GoString>)
    requires |parts| >= 1
    requires forall i | 0 <= i < |parts| :: DOT !in parts[i]
    ensures EntryError(Join(parts, DOT)) == None <==>
      |parts| >= 4 && |parts[0]| > 0 && IsUpperByte(parts[0][0])
    ensures |parts| < 4 ==> EntryError(Join(parts, DOT)) == Some(NotFullForm(Join(parts, DOT)))
  {
    SplitJoin(parts, DOT);
  }

  /** One more part after an accepted entry keeps it accepted, so the group
      may contain any number of dots. */
  lemma ExtraPartAccepted(entry: GoString, part: GoString)
    requires EntryValid(entry)
    ensures EntryValid(entry + [DOT] + part)
  {
    CountAppend(entry, [DOT] + part, DOT);
    CountAppend([DOT], part, DOT);
    assert entry + [DOT] + part == entry + ([DOT] + part);
  }

  /** Every entry of the list is acceptable. */
  predicate AllEntriesValid(entries: seq<GoString>)
  {
    forall i | 0 <= i < |entries| :: EntryValid(entries[i])
  }

  /** The error of the first refused entry, if any: entries are examined in
      order and the first refused one decides the error. */
  function FirstKindError(entries: seq<GoString>): (err: Option<KindError>)
    ensures err == None <==> AllEntriesValid(entries)
    ensures err != None ==> exists i | 0 <= i < |entries| ::
      AllEntriesValid(entries[..i]) && err == EntryError(entries[i]) && err != None
  {
    if |entries| == 0 then None
    else
      var e := EntryError(entries[0]);
      if e != None then
        assert AllEntriesValid(entries[..0]);
        e
      else
        var rest := FirstKindError(entries[1..]);
        FirstKindErrorStep(entries, rest);
        rest
  }

  /** The inductive step of `FirstKindError`: a refused entry found in the
      tail of a list whose head passes is the first refused entry of the
      whole list. */
  lemma FirstKindErrorStep(entries: seq<GoString>, rest: Option<KindError>)
    requires |entries| > 0 && EntryValid(entries[0])
    requires rest == None <==> AllEntriesValid(entries[1..])
    requires rest != None ==> exists i | 0 <= i < |entries| - 1 ::
      AllEntriesValid(entries[1..][..i]) && rest == EntryError(entries[1..][i]) && rest != None
    ensures rest == None <==> AllEntriesValid(entries)
    ensures rest != None ==> exists i | 0 <= i < |entries| ::
      AllEntriesValid(entries[..i]) && rest == EntryError(entries[i]) && rest != None
  {
    if rest != None {
      var i :| 0 <= i < |entries| - 1 && AllEntriesValid(entries[1..][..i]) &&
        rest == EntryError(entries[1..][i]) && rest != None;
      assert entries[..i + 1] == [entries[0]] + entries[1..][..i];
      assert AllEntriesValid(entries[..i + 1]);
    } else {
      assert forall i | 1 <= i < |entries| :: entries[i] == entries[1..][i - 1];
    }
  }

  /** Entries after the first refused one are never examined: appending to
      a list that already fails leaves its error alone, and appending to a
      list that passes makes the appended part decide. */
  lemma {:induction false} FirstKindErrorAppend(front: seq<GoString>, back: seq<GoString>)
    ensures FirstKindError(front) != None ==> FirstKindError(front + back) == FirstKindError(front)
    ensures FirstKindError(front) == None ==> FirstKindError(front + back) == FirstKindError(back)
  {
    if |front| > 0 {
      assert (front + back)[0] == front[0];
      assert (front + back)[1..] == front[1..] + back;
      FirstKindErrorAppend(front[1..], back);
    } else {
      assert front + back == back;
    }
  }

  /** One step of `FirstKindError` from position `i` of a list. */
  lemma FirstKindErrorAt(entries: seq<GoString>, i: nat)
    requires i < |entries|
    ensures FirstKindError(entries[i..]) ==
      if EntryError(entries[i]) != None then EntryError(entries[i]) else FirstKindError(entries[i + 1..])
  {
    assert entries[i..][0] == entries[i];
    assert entries[i..][1..] == entries[i + 1..];
  }

  /** `validateAdditionalResources`, with an entry whose Kind part is empty
      refused as not capitalised. */
  method ValidateAdditionalResources(resources: seq<GoString>) returns (err: Option<KindError>)
    ensures err == FirstKindError(resources)
  {
    for i := 0 to |resources|
      invariant FirstKindError(resources) == FirstKindError(resources[i..])
    {
      FirstKindErrorAt(resources, i);
      var parts := Split(resources[i], DOT);
      if |parts| < 4 {
        return Some(NotFullForm(resources[i]));
      }
      if |parts[0]| == 0 || !IsUpperByte(parts[0][0]) {
        return Some(NotCapitalized(parts[0]));
      }
    }
    assert resources[|resources|..] == [];
    return None;
  }

  /** How a call of the Go function ends: it returns (an error or `nil`), or
      it panics because an index is out of range. */
  datatype Outcome = Returned(err: Option<KindError>) | IndexOutOfRange

  /** `validateAdditionalResources` as written: the first byte of the Kind
      part is read without checking that the part is non-empty, so an entry
      with at least four parts that starts with a dot panics. */
  method ValidateAdditionalResourcesAsWritten(resources: seq<GoString>) returns (o: Outcome)
    ensures o == IndexOutOfRange <==> FirstKindError(resources) == Some(NotCapitalized([]))
    ensures o != IndexOutOfRange ==> o == Returned(FirstKindError(resources))
  {
    for i := 0 to |resources|
      invariant FirstKindError(resources) == FirstKindError(resources[i..])
    {
      FirstKindErrorAt(resources, i);
      var parts := Split(resources[i], DOT);
      if |parts| < 4 {
        return Returned(Some(NotFullForm(resources[i])));
      }
      if |parts[0]| == 0 {
        return IndexOutOfRange;
      }
      if !IsUpperByte(parts[0][0]) {
        return Returned(Some(NotCapitalized(parts[0])));
      }
    }
    assert resources[|resources|..] == [];
    return Returned(None);
  }

  // ---------------------------------------------------------------------
  // NewFromFlags, after flag.Parse
  // ---------------------------------------------------------------------

  /** The part of `NewFromFlags` that runs after the flags are parsed into
      `parsed`: the output format, the output file and the additional kinds
      are checked in that order and the first failure is returned; on
      success an unset target version becomes a `nil` `TargetVersion` and
      every other field is kept. */
  method NewFromFlags(parsed: Config, host: Host) returns (r: Result<Config, Error>)
    requires parsed.targetVersion != None
    ensures !IsValidOutputFormat(parsed.output) ==> r == Err(InvalidOutput(parsed.output))
    ensures IsValidOutputFormat(parsed.output) && ValidateOutputFile(parsed.outputFile, host) != None ==>
      r == Err(InvalidOutputFile(ValidateOutputFile(parsed.outputFile, host).value))
    ensures (IsValidOutputFormat(parsed.output) && ValidateOutputFile(parsed.outputFile, host) == None &&
             FirstKindError(parsed.additionalKinds) != None) ==>
      r == Err(InvalidAdditionalKinds(FirstKindError(parsed.additionalKinds).value))
    ensures r.Ok? <==>
      IsValidOutputFormat(parsed.output) && ValidateOutputFile(parsed.outputFile, host) == None &&
      AllEntriesValid(parsed.additionalKinds)
    ensures r.Ok? ==> r.value.(targetVersion := parsed.targetVersion) == parsed
    ensures r.Ok? ==> (r.value.targetVersion == None <==> parsed.targetVersion.value.version == None)
    ensures r.Ok? && r.value.targetVersion != None ==> r.value.targetVersion == parsed.targetVersion
  {
    var config := parsed;
    if !IsValidOutputFormat(config.output) {
      return Err(InvalidOutput(config.output));
    }
    var fileErr := ValidateOutputFile(config.outputFile, host);
    if fileErr != None {
      return Err(InvalidOutputFile(fileErr.value));
    }
    var kindErr := ValidateAdditionalResources(config.additionalKinds);
    if kindErr != None {
      return Err(InvalidAdditionalKinds(kindErr.value));
    }
    if config.targetVersion.value.version == None {
      config := config.(targetVersion := None);
    }
    return Ok(config);
  }

  /** An empty command line passes every check, whatever the filesystem,
      and leaves the target version unset, so `NewFromFlags` returns the
      defaults with a `nil` `TargetVersion`. */
  lemma DefaultsPassValidation(kubeconfigEnv: GoString, host: Host)
    ensures IsValidOutputFormat(Defaults(kubeconfigEnv).output)
    ensures ValidateOutputFile(Defaults(kubeconfigEnv).outputFile, host) == None
    ensures AllEntriesValid(Defaults(kubeconfigEnv).additionalKinds)
    ensures Defaults(kubeconfigEnv).targetVersion.value.version == None
  {
  }
}
