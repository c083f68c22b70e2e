/**
 * What the blastall mapper reads from the job configuration when it is built:
 * its typed settings with their defaults, the database directory named by the
 * distributed-cache entry, and the options table handed to the alignment engine.
 */
module BlastallConfig {
  import opened Results
  import PyText
  import PosixPath

  /** The job configuration: key to raw string value. */
  type JobConf = map<string, string>

  const LogLevelKey := "bl.mr.seq.blastall.log.level"
  const ExeKey := "bl.mr.seq.blastall.exe"
  const ProgramKey := "bl.mr.seq.blastall.program"
  const DbNameKey := "bl.mr.seq.blastall.db.name"
  const EvalueKey := "bl.mr.seq.blastall.evalue"
  const GapCostKey := "bl.mr.seq.blastall.gap.cost"
  const WordSizeKey := "bl.mr.seq.blastall.word.size"
  const FilterKey := "bl.mr.seq.blastall.filter"
  const CacheArchivesKey := "mapred.cache.archives"

  const DefaultLogLevel := "WARNING"
  const DefaultExe := "/usr/bin/blastall"
  const DefaultProgram := "blastn"
  const DefaultEvalue: real := 1.0
  const DefaultGapCost := 1
  const DefaultWordSize := 20
  const DefaultFilter := false

  /** The names of the engine's input and output files, fixed by the mapper. */
  const InputFile := "temp.in"
  const OutputFile := "temp.out"

  /**
   * How the framework turns a raw value into a float, an integer or a boolean;
   * None where it refuses the text. The evalue float is carried as a `real`.
   */
  datatype Parsers = Parsers(
    asFloat: string -> Option<real>,
    asInt: string -> Option<int>,
    asBool: string -> Option<bool>)

  /** The settings the mapper keeps as attributes. */
  datatype Settings = Settings(
    logLevel: string,
    exe: string,
    program: string,
    dbName: string,
    evalue: real,
    gapCost: int,
    wordSize: int,
    filter: bool)

  datatype InitError =
    | UnsupportedLogLevel(level: string)
    | MissingKey(key: string)
    | BadValue(key: string)
    | BadCacheArchives

  /** A string setting: the configured value, or the default when the key is absent. */
  function StringOr(jc: JobConf, key: string, default: string): (r: string)
    ensures key in jc ==> r == jc[key]
    ensures key !in jc ==> r == default
  {
    if key in jc then jc[key] else default
  }

  /** A typed setting: the parsed value, the default when the key is absent, an error when parsing fails. */
  function TypedOr<T>(jc: JobConf, key: string, default: T, parse: string -> Option<T>): (r: Result<T, InitError>)
    ensures key !in jc ==> r == Ok(default)
    ensures key in jc && parse(jc[key]).Some? ==> r == Ok(parse(jc[key]).value)
    ensures key in jc && parse(jc[key]).None? ==> r == Err(BadValue(key))
  {
    if key !in jc then Ok(default)
    else match parse(jc[key])
      case None => Err(BadValue(key))
      case Some(v) => Ok(v)
  }

  /** A typed setting is acceptable when it is absent or its value parses. */
  predicate Parses<T>(jc: JobConf, key: string, parse: string -> Option<T>) {
    key in jc ==> parse(jc[key]).Some?
  }

  /** The log level is accepted and the database name is present: the typed settings are read next. */
  predicate Reached(jc: JobConf, levels: set<string>) {
    StringOr(jc, LogLevelKey, DefaultLogLevel) in levels && DbNameKey in jc
  }

  /**
   * Reads the settings in the order the mapper does; `levels` are the names the
   * logging module accepts as a level.
   */
  function Configure(jc: JobConf, levels: set<string>, parsers: Parsers): (r: Result<Settings, InitError>)
    ensures r.Ok? <==>
      && StringOr(jc, LogLevelKey, DefaultLogLevel) in levels
      && DbNameKey in jc
      && Parses(jc, EvalueKey, parsers.asFloat)
      && Parses(jc, GapCostKey, parsers.asInt)
      && Parses(jc, WordSizeKey, parsers.asInt)
      && Parses(jc, FilterKey, parsers.asBool)
    ensures StringOr(jc, LogLevelKey, DefaultLogLevel) !in levels ==>
      r == Err(UnsupportedLogLevel(StringOr(jc, LogLevelKey, DefaultLogLevel)))
    ensures StringOr(jc, LogLevelKey, DefaultLogLevel) in levels && DbNameKey !in jc ==>
      r == Err(MissingKey(DbNameKey))
    ensures r.Err? && r.error.BadValue? ==>
      r.error.key in {EvalueKey, GapCostKey, WordSizeKey, FilterKey} && r.error.key in jc
    ensures Reached(jc, levels) && !Parses(jc, EvalueKey, parsers.asFloat) ==>
      r == Err(BadValue(EvalueKey))
    ensures (Reached(jc, levels) && Parses(jc, EvalueKey, parsers.asFloat)
             && !Parses(jc, GapCostKey, parsers.asInt)) ==>
      r == Err(BadValue(GapCostKey))
    ensures (Reached(jc, levels) && Parses(jc, EvalueKey, parsers.asFloat) && Parses(jc, GapCostKey, parsers.asInt)
             && !Parses(jc, WordSizeKey, parsers.asInt)) ==>
      r == Err(BadValue(WordSizeKey))
    ensures (Reached(jc, levels) && Parses(jc, EvalueKey, parsers.asFloat) && Parses(jc, GapCostKey, parsers.asInt)
             && Parses(jc, WordSizeKey, parsers.asInt) && !Parses(jc, FilterKey, parsers.asBool)) ==>
      r == Err(BadValue(FilterKey))
    ensures r.Ok? ==>
      && r.value.logLevel == StringOr(jc, LogLevelKey, DefaultLogLevel)
      && r.value.exe == StringOr(jc, ExeKey, DefaultExe)
      && r.value.program == StringOr(jc, ProgramKey, DefaultProgram)
      && r.value.dbName == jc[DbNameKey]
      && r.value.evalue == (if EvalueKey in jc then parsers.asFloat(jc[EvalueKey]).value else DefaultEvalue)
      && r.value.gapCost == (if GapCostKey in jc then parsers.asInt(jc[GapCostKey]).value else DefaultGapCost)
      && r.value.wordSize == (if WordSizeKey in jc then parsers.asInt(jc[WordSizeKey]).value else DefaultWordSize)
      && r.value.filter == (if FilterKey in jc then parsers.asBool(jc[FilterKey]).value else DefaultFilter)
  {
    var level := StringOr(jc, LogLevelKey, DefaultLogLevel);
    if level !in levels then Err(UnsupportedLogLevel(level))
    else if DbNameKey !in jc then Err(MissingKey(DbNameKey))
    else
      var evalue := TypedOr(jc, EvalueKey, DefaultEvalue, parsers.asFloat);
      var gapCost := TypedOr(jc, GapCostKey, DefaultGapCost, parsers.asInt);
      var wordSize := TypedOr(jc, WordSizeKey, DefaultWordSize, parsers.asInt);
      var filter := TypedOr(jc, FilterKey, DefaultFilter, parsers.asBool);
      if evalue.Err? then Err(evalue.error)
      else if gapCost.Err? then Err(gapCost.error)
      else if wordSize.Err? then Err(wordSize.error)
      else if filter.Err? then Err(filter.error)
      else Ok(Settings(level, StringOr(jc, ExeKey, DefaultExe), StringOr(jc, ProgramKey, DefaultProgram),
                       jc[DbNameKey], evalue.value, gapCost.value, wordSize.value, filter.value))
  }

  /** With only the database name configured, every other setting takes its default. */
  lemma ConfigureDefaults(name: string, levels: set<string>, parsers: Parsers)
    requires DefaultLogLevel in levels
    ensures Configure(map[DbNameKey := name], levels, parsers)
         == Ok(Settings("WARNING", "/usr/bin/blastall", "blastn", name, 1.0, 1, 20, false))
  {
    var jc := map[DbNameKey := name];
    assert LogLevelKey !in jc && ExeKey !in jc && ProgramKey !in jc && EvalueKey !in jc;
    assert GapCostKey !in jc && WordSizeKey !in jc && FilterKey !in jc;
  }

  /**
   * `archives.split(",")[0].split("#")[1]`: the link name of the first cache
   * entry; an error (ValueError in the mapper) when that entry has no `#`.
   */
  function DbDir(archives: string): (r: Result<string, InitError>)
    ensures r.Ok? <==> '#' in PyText.Before(archives, ',')
    ensures r.Err? ==> r.error == BadCacheArchives
    ensures r.Ok? ==> '#' !in r.value && ',' !in r.value
  {
    var entry := PyText.Split(archives, ',')[0];
    var fields := PyText.Split(entry, '#');
    PyText.SplitHead(archives, ',');
    PyText.SplitHead(entry, '#');
    PyText.SplitPiecesFree(archives, ',');
    PyText.SplitPiecesFree(entry, '#');
    if |fields| < 2 then Err(BadCacheArchives)
    else
      assert ',' !in fields[1] by {
        PyText.SplitJoin(entry, '#');
        PyText.SplitPieceWithin(entry, '#', ',', 1);
      }
      Ok(fields[1])
  }

  /** The database directory is the text between the first `#` of the first entry and the next `#`, or the end of that entry. */
  lemma DbDirBetweenHashes(archives: string)
    requires '#' in PyText.Before(archives, ',')
    ensures DbDir(archives) == Ok(PyText.Before(PyText.After(PyText.Before(archives, ','), '#'), '#'))
  {
    PyText.SplitHead(archives, ',');
    PyText.SplitSecond(PyText.Before(archives, ','), '#');
  }

  /** The values the engine options table holds. */
  datatype OptValue = Text(text: string) | Flag(flag: bool) | Number(number: int) | Float(float: real)

  const OptionKeys: set<string> := {
    "blastall.program", "blastall.database", "blastall.out.tabular",
    "blastall.input.file", "blastall.output.file", "blastall.evalue",
    "blastall.gap.cost", "blastall.word.size", "blastall.filter"}

  /** The nine option names are distinct. */
  lemma OptionKeysCount()
    ensures |OptionKeys| == 9
  {
    assert "blastall.program"[9] == 'p';
    assert "blastall.database"[9] == 'd';
    assert "blastall.out.tabular"[9] == 'o' && "blastall.out.tabular"[12] == '.';
    assert "blastall.input.file"[9] == 'i';
    assert "blastall.output.file"[9] == 'o' && "blastall.output.file"[12] == 'p';
    assert "blastall.evalue"[9] == 'e';
    assert "blastall.gap.cost"[9] == 'g';
    assert "blastall.word.size"[9] == 'w';
    assert "blastall.filter"[9] == 'f';
  }

  /** The options table the mapper passes to the engine on every record. */
  function Options(s: Settings, dbDir: string): (r: map<string, OptValue>)
    ensures r.Keys == OptionKeys && |r| == 9
    ensures r["blastall.program"] == Text(s.program)
    ensures r["blastall.database"] == Text(PosixPath.Join(dbDir, s.dbName))
    ensures r["blastall.out.tabular"] == Flag(true)
    ensures r["blastall.input.file"] == Text(InputFile)
    ensures r["blastall.output.file"] == Text(OutputFile)
    ensures r["blastall.evalue"] == Float(s.evalue)
    ensures r["blastall.gap.cost"] == Number(s.gapCost)
    ensures r["blastall.word.size"] == Number(s.wordSize)
    ensures r["blastall.filter"] == Flag(s.filter)
  {
    OptionKeysCount();
    map[
      "blastall.program" := Text(s.program),
      "blastall.database" := Text(PosixPath.Join(dbDir, s.dbName)),
      "blastall.out.tabular" := Flag(true),
      "blastall.input.file" := Text(InputFile),
      "blastall.output.file" := Text(OutputFile),
      "blastall.evalue" := Float(s.evalue),
      "blastall.gap.cost" := Number(s.gapCost),
      "blastall.word.size" := Number(s.wordSize),
      "blastall.filter" := Flag(s.filter)]
  }

  /** The database entry: directory, slash, name for a relative name; the bare name for an empty directory. */
  lemma DatabasePath(s: Settings, dbDir: string)
    requires !PosixPath.IsAbs(s.dbName)
    ensures dbDir == "" ==> Options(s, dbDir)["blastall.database"] == Text(s.dbName)
    ensures dbDir != "" && dbDir[|dbDir| - 1] != '/' ==>
      Options(s, dbDir)["blastall.database"] == Text(dbDir + "/" + s.dbName)
  {
  }

  /** Everything the mapper's constructor computes from the configuration. */
  datatype Setup = Setup(settings: Settings, dbDir: string, opts: map<string, OptValue>)

  /**
   * The mapper's construction: the settings first, then the database directory,
   * then the options table; the first failure is the error.
   */
  function Initialize(jc: JobConf, levels: set<string>, parsers: Parsers): (r: Result<Setup, InitError>)
    ensures Configure(jc, levels, parsers).Err? ==> r == Err(Configure(jc, levels, parsers).error)
    ensures r.Ok? <==>
      Configure(jc, levels, parsers).Ok? && CacheArchivesKey in jc && DbDir(jc[CacheArchivesKey]).Ok?
    ensures Configure(jc, levels, parsers).Ok? && CacheArchivesKey !in jc ==>
      r == Err(MissingKey(CacheArchivesKey))
    ensures Configure(jc, levels, parsers).Ok? && CacheArchivesKey in jc && DbDir(jc[CacheArchivesKey]).Err? ==>
      r == Err(BadCacheArchives)
    ensures r.Ok? ==>
      && r.value.settings == Configure(jc, levels, parsers).value
      && r.value.dbDir == DbDir(jc[CacheArchivesKey]).value
      && r.value.opts == Options(r.value.settings, r.value.dbDir)
  {
    match Configure(jc, levels, parsers)
    case Err(e) => Err(e)
    case Ok(settings) =>
      if CacheArchivesKey !in jc then Err(MissingKey(CacheArchivesKey))
      else match DbDir(jc[CacheArchivesKey])
        case Err(e) => Err(e)
        case Ok(dir) => Ok(Setup(settings, dir, Options(settings, dir)))
  }
}
