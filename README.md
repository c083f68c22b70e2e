# blastall mapper, modelled in Dafny

This project models the `Mapper` of biodoop-blast (`bl/blast/mr/blastall/mapper.py`),
the Hadoop pipes mapper that runs the external `blastall` alignment tool once per
input record. The mapper's own logic is string and path handling around that call:

- when it is built, it reads its settings from the job configuration, with
  defaults (log level `WARNING`, executable `/usr/bin/blastall`, program `blastn`,
  evalue 1.0, gap cost 1, word size 20, filter off) and a required database name;
  it takes the database directory from the first entry of `mapred.cache.archives`
  (the link name after its first `#`) and builds the nine-entry options table for
  the engine, whose database entry is `os.path.join(db_dir, db_name)`;
- for each record it right-strips the input value and splits it at its first tab
  into a header and a sequence, writes them as the FASTA text `>header\nseq\n`,
  runs the engine, and reads the engine's tabular output line by line: each
  right-stripped line is counted as a hit, split at its first tab and emitted as a
  key/value pair.

Modules:

- `Results` (`results.dfy`): `Option` and `Result`, standing for Python's exceptions.
- `PyText` (`pytext.dfy`): the Python 2 `str` operations the mapper uses:
  `rstrip()` (space, tab, newline, carriage return, vertical tab, form feed),
  `split(c)` and `split(c, 1)` unpacked into two names, each with the lemmas that
  characterise it (the stripped prefix is unique, split pieces join back, the
  first and second pieces are the text around the first separator).
- `PosixPath` (`posixpath.dfy`): `os.path.join` on POSIX, with `basename` as an
  independent check of it.
- `Fasta` (`fasta.dfy`): the one-record FASTA text and a reader it round-trips with.
- `BlastallConfig` (`config.dfy`): the job configuration, settings and their
  defaults, the database directory, the options table and the whole of construction.
- `BlastallMapper` (`mapper.dfy`): the record split, the hit loop as a
  specification function `Hits`, and the class `Mapper` whose `Map` method runs that
  loop over the engine's output, updating the emitted pairs and the hit counter.

Behaviour of the code that is easy to misread: in `map`, the hit counter is
incremented before the line is split, so when a right-stripped output line has no
tab the counter has already counted it, although nothing is emitted for it. After
failing at line `j` (counting from 0), `j` pairs have been emitted and the counter
has risen by `j + 1`. The model follows the code here (`HitsCount`, `Mapper.EmitHits`).

## Model

| member | source | states |
|---|---|---|
| `PyText.RStrip` | bl/blast/mr/blastall/mapper.py:89 | `rstrip()` never lengthens its input; what it keeps and removes is stated by `RStripSpec` and `RStripUnique` |
| `PyText.RStripSpec` | bl/blast/mr/blastall/mapper.py:89 | `rstrip()` keeps a prefix of its input that is empty or ends in a non-whitespace character, and everything it removes is whitespace |
| `PyText.RStripUnique` | bl/blast/mr/blastall/mapper.py:106 | that split of a string into a prefix not ending in whitespace plus a whitespace tail is the only one |
| `PyText.RStripIdempotent` | bl/blast/mr/blastall/mapper.py:106 | stripping an already stripped line changes nothing |
| `PyText.RStripAppendSpace` | bl/blast/mr/blastall/mapper.py:104-106 | trailing whitespace such as the line break a file line carries makes no difference to the stripped line |
| `PyText.IndexOf` | bl/blast/mr/blastall/mapper.py:95 | the position found holds the separator and none comes before it; there is none exactly when the separator does not occur |
| `PyText.SplitOnce` | bl/blast/mr/blastall/mapper.py:89 | `split(c, 1)` into two names fails exactly when there is no `c`; otherwise its first part holds no `c` |
| `PyText.SplitOnceSpec` | bl/blast/mr/blastall/mapper.py:95 | first part, separator, second part is the input |
| `PyText.SplitOnceUnique` | bl/blast/mr/blastall/mapper.py:95 | any decomposition with a separator-free first part is the one split-once returns |
| `PyText.Split` | bl/blast/mr/blastall/mapper.py:73 | `split(c)` always yields at least one piece |
| `PyText.SplitAbsent` | bl/blast/mr/blastall/mapper.py:73 | a string without the separator splits into itself alone |
| `PyText.SplitFirst` | bl/blast/mr/blastall/mapper.py:73 | splitting yields the text before the first separator followed by the split of the text after it |
| `PyText.SplitPiecesFree` | bl/blast/mr/blastall/mapper.py:73 | no piece contains the separator |
| `PyText.SplitJoin` | bl/blast/mr/blastall/mapper.py:73 | joining the pieces with the separator gives back the input |
| `PyText.SplitHead` | bl/blast/mr/blastall/mapper.py:73 | piece 0 is the text before the first separator (all of it if none); a piece 1 exists exactly when the separator occurs |
| `PyText.SplitSecond` | bl/blast/mr/blastall/mapper.py:73 | piece 1 is the text between the first separator and the next one, or the end |
| `PyText.SplitPieceWithin` | bl/blast/mr/blastall/mapper.py:73 | a piece of a split holds no character its whole does not hold |
| `PosixPath.Join` | bl/blast/mr/blastall/mapper.py:78 | the name ends the result; an absolute name replaces the directory; otherwise the directory starts the result, a slash precedes the name when the directory is non-empty, and exactly one slash is added unless the directory is empty or already ends in a slash, when none is |
| `PosixPath.BasenameOfJoin` | bl/blast/mr/blastall/mapper.py:78 | the basename of a directory joined with a slash-free name is that name |
| `Fasta.Record` | bl/blast/mr/blastall/mapper.py:98-101 | the input text is `>`, the header, a line break, the sequence and a final line break, at exactly those positions |
| `Fasta.ParseRecord` | bl/blast/mr/blastall/mapper.py:100 | a header without line breaks and any sequence read back unchanged from the written text |
| `BlastallConfig.StringOr` | bl/blast/mr/blastall/mapper.py:41-51 | a string setting is the configured value when the key is present and the default otherwise |
| `BlastallConfig.TypedOr` | bl/blast/mr/blastall/mapper.py:52-57 | a typed setting is its default when the key is absent, its parsed value when it parses, and an error naming the key when it does not |
| `BlastallConfig.Configure` | bl/blast/mr/blastall/mapper.py:40-57 | reading the settings succeeds exactly when the log level is accepted, the database name is present and each present typed value parses; an unaccepted level is reported before a missing name, which is reported before a bad typed value; of the typed values the first that does not parse, in the order evalue, gap cost, word size, filter, is the one reported; each setting is its configured value or its default |
| `BlastallConfig.ConfigureDefaults` | bl/blast/mr/blastall/mapper.py:41-57 | with only the database name configured the settings are `WARNING`, `/usr/bin/blastall`, `blastn`, 1.0, 1, 20, false |
| `BlastallConfig.DbDir` | bl/blast/mr/blastall/mapper.py:72-75 | the database directory exists exactly when the first comma-separated entry holds a `#`, otherwise the error is the bad-format error; the directory holds neither `#` nor `,` |
| `BlastallConfig.DbDirBetweenHashes` | bl/blast/mr/blastall/mapper.py:73 | the directory is the text between the first `#` of the first entry and the next `#` or the end of the entry |
| `BlastallConfig.OptionKeysCount` | bl/blast/mr/blastall/mapper.py:76-86 | the nine option names are distinct |
| `BlastallConfig.Options` | bl/blast/mr/blastall/mapper.py:76-86 | the table has exactly the nine keys; tabular output is always on, the input and output files are `temp.in` and `temp.out`, the rest are the configured values and the joined database path |
| `BlastallConfig.DatabasePath` | bl/blast/mr/blastall/mapper.py:78 | for a relative database name the path is `db_dir + "/" + db_name` when the directory is non-empty without a trailing slash, and the bare name when it is empty |
| `BlastallConfig.Initialize` | bl/blast/mr/blastall/mapper.py:59-86 | configuration errors come first, then a missing cache-archive key, then a bad cache-archive entry; on success the setup holds the settings, the directory and the options table built from them |
| `BlastallMapper.SplitRecord` | bl/blast/mr/blastall/mapper.py:89 | the record splits exactly when its stripped value holds a tab, and the header is then tab-free |
| `BlastallMapper.SplitRecordSpec` | bl/blast/mr/blastall/mapper.py:89 | header, tab, sequence is the stripped value, and the sequence is non-empty and does not end in whitespace |
| `BlastallMapper.InputFileRoundTrip` | bl/blast/mr/blastall/mapper.py:89-101 | for a record without line breaks the written input file reads back as exactly the split header and sequence |
| `BlastallMapper.ReadOutput` | bl/blast/mr/blastall/mapper.py:103-106 | one stripped line per file line, in file order |
| `BlastallMapper.HitsUpTo` | bl/blast/mr/blastall/mapper.py:93-96 | after any number of lines, no more pairs are emitted than hits counted, and no more hits than lines |
| `BlastallMapper.Hits` | bl/blast/mr/blastall/mapper.py:93-96 | the loop over all lines emits no more pairs than it counts and counts no more than the lines; a failure is at a line that exists and ends the count just after it |
| `BlastallMapper.HitsCountUpTo` | bl/blast/mr/blastall/mapper.py:93-96 | after the first n lines: no failure exactly when all of them hold a tab; a failure is at the first tab-free line; pairs and hits are n each, or j and j + 1 after a failure at line j |
| `BlastallMapper.HitsCount` | bl/blast/mr/blastall/mapper.py:93-96 | for n output lines all holding a tab, n pairs are emitted and the counter rises by n; otherwise the first tab-free line j ends processing with j pairs emitted and j + 1 hits counted |
| `BlastallMapper.HitsStep` | bl/blast/mr/blastall/mapper.py:93-96 | one more line after an unbroken run is counted; with a tab its split is appended, without one processing ends with that line |
| `BlastallMapper.HitsStopAtFailure` | bl/blast/mr/blastall/mapper.py:93-96 | lines after the failing one change neither the pairs nor the count |
| `BlastallMapper.HitsPairsUpTo` | bl/blast/mr/blastall/mapper.py:95-96 | pair `j` is the first-tab split of line `j` |
| `BlastallMapper.HitsPairs` | bl/blast/mr/blastall/mapper.py:95-96 | pair `j` is the first-tab split of line `j`: a tab-free key and a value that, rejoined by a tab, give the line |
| `BlastallMapper.StatusOf` | bl/blast/mr/blastall/mapper.py:93-96 | a record ends well exactly when no hit line failed, and otherwise names the failing line |
| `BlastallMapper.Mapper.constructor` | bl/blast/mr/blastall/mapper.py:59-86 | built from a configuration that `Initialize` accepts, the mapper keeps the configured settings, the cache-archive directory and the options table built from them, uses `temp.in` and `temp.out`, and starts with no pairs emitted and no hits counted |
| `BlastallMapper.Mapper.WriteInput` | bl/blast/mr/blastall/mapper.py:98-101 | the input file afterwards holds exactly the FASTA text of the header and sequence |
| `BlastallMapper.Mapper.EmitHits` | bl/blast/mr/blastall/mapper.py:93-96 | the loop appends exactly the pairs of `Hits` to the emitted pairs, raises the counter by its count and reports its failure, if any |
| `BlastallMapper.Mapper.Map` | bl/blast/mr/blastall/mapper.py:88-107 | a record without a tab fails and changes nothing; otherwise the input file holds its FASTA text, and the emitted pairs, counter and status are those of the hit loop over the engine's stripped output |

## Left out

- The log level is checked as membership in a set of accepted names (`levels`), standing for the attributes of Python's `logging` module; the level value itself, the loggers and `logging.basicConfig` are not modelled.
- `BlastallConfig.TypedOr`: the text-to-float, text-to-int and text-to-bool conversions of pydoop's `jc_configure_float/int/bool` are not part of this model; they are parameters (`Parsers`) that may refuse a value, and the evalue float is carried as a `real`, without rounding.
- `BlastallConfig.Initialize`: what pydoop's `jc.get` does for a missing `mapred.cache.archives` key is not part of this model; it is modelled as a missing-key error.
- The `Engine.blastall` subprocess is a function parameter from the options table and the input file's text to the output file's lines; how it fails is not modelled.
- `BlastallMapper.Mapper.Map`: the engine built from `blastall_exe` (mapper.py:71) is not tied to `settings.exe`; any engine function may be passed, so the executable setting reaches no contract beyond `Configure`.
- `BlastallMapper.Mapper.constructor`: a configuration `Initialize` rejects cannot build a mapper; the error it raises is the one `Initialize` returns, and the constructor is not called for it.
- `PyText.RStrip`: its own contract is only the length bound; the prefix and whitespace-tail facts are in the lemmas `RStripSpec` and `RStripUnique`, kept out of the function's contract because every caller's proof would otherwise carry them.
- The files are not opened, written or read: the input file is the field `inputText`, the output file is the engine's result, and nothing models the file system, `temp.in` being shared, or files left open after an error.
- The pipes context is not modelled: `emit` appends to the field `emitted` and the BLAST_HITS counter is the field `hits`, taken to start at 0 for a new mapper.
- `run_task` in `bl/blast/mr/blastall/__init__.py`, the version import in `bl/blast/__init__.py` and `setup.py` are framework, packaging and build glue.
