/**
 * The blastall mapper: splits each input record into a FASTA header and
 * sequence, writes them for the alignment engine, and turns every tabular hit
 * line the engine produces into an emitted key/value pair, counting hits.
 */
module BlastallMapper {
  import opened Results
  import PyText
  import Fasta
  import opened BlastallConfig

  /** An emitted key/value pair. */
  type Pair = (string, string)

  /**
   * The external alignment engine: from the options table and the text of the
   * input file to the lines of the output file it leaves behind.
   */
  type Engine = (map<string, OptValue>, string) -> seq<string>

  /**
   * `header, seq = value.rstrip().split("\t", 1)`; None where the mapper fails
   * because the stripped record has no tab.
   */
  function SplitRecord(value: string): (r: Option<(string, string)>)
    ensures r.None? <==> '\t' !in PyText.RStrip(value)
    ensures r.Some? ==> '\t' !in r.value.0
  {
    PyText.SplitOnce(PyText.RStrip(value), '\t')
  }

  /**
   * A record that splits has a tab-free header that, joined by a tab with the
   * sequence, gives the stripped value; the sequence is non-empty and does not
   * end in whitespace.
   */
  lemma SplitRecordSpec(value: string)
    requires SplitRecord(value).Some?
    ensures SplitRecord(value).value.0 + "\t" + SplitRecord(value).value.1 == PyText.RStrip(value)
    ensures |SplitRecord(value).value.1| > 0
    ensures !PyText.IsSpace(SplitRecord(value).value.1[|SplitRecord(value).value.1| - 1])
  {
    var stripped := PyText.RStrip(value);
    var (header, sequence) := SplitRecord(value).value;
    PyText.RStripSpec(value);
    PyText.SplitOnceSpec(stripped, '\t');
    assert stripped[|stripped| - 1] == (header + "\t" + sequence)[|stripped| - 1];
  }

  /** For a record without line breaks, the input file reads back as the record's header and sequence. */
  lemma InputFileRoundTrip(value: string)
    requires '\n' !in value
    requires SplitRecord(value).Some?
    ensures Fasta.Parse(Fasta.Record(SplitRecord(value).value.0, SplitRecord(value).value.1))
         == SplitRecord(value)
  {
    var (header, sequence) := SplitRecord(value).value;
    var stripped := PyText.RStrip(value);
    PyText.RStripSpec(value);
    SplitRecordSpec(value);
    assert forall i :: 0 <= i < |header| ==> header[i] == stripped[i] == value[i];
    Fasta.ParseRecord(header, sequence);
  }

  /** The output file read line by line, each line right-stripped. */
  function ReadOutput(fileLines: seq<string>): (r: seq<string>)
    ensures |r| == |fileLines|
    ensures forall i :: 0 <= i < |r| ==> r[i] == PyText.RStrip(fileLines[i])
  {
    seq(|fileLines|, i requires 0 <= i < |fileLines| => PyText.RStrip(fileLines[i]))
  }

  /**
   * What processing a run of hit lines does: the pairs emitted, how far the hit
   * counter rose, and the first line without a tab, if any.
   */
  datatype HitsOutcome = HitsOutcome(pairs: seq<Pair>, counted: nat, failedAt: Option<nat>)

  /**
   * The hit loop over the first `n` (already stripped) lines: each line is
   * counted, then split at its first tab and emitted; the first line without a
   * tab ends the loop after it has been counted.
   */
  function HitsUpTo(lines: seq<string>, n: nat): (r: HitsOutcome)
    requires n <= |lines|
    ensures |r.pairs| <= r.counted <= n
  {
    if n == 0 then HitsOutcome([], 0, None)
    else
      var before := HitsUpTo(lines, n - 1);
      if before.failedAt.Some? then before
      else match PyText.SplitOnce(lines[n - 1], '\t')
        case None => HitsOutcome(before.pairs, before.counted + 1, Some(n - 1))
        case Some(p) => HitsOutcome(before.pairs + [p], before.counted + 1, None)
  }

  /** The hit loop over all the lines. */
  function Hits(lines: seq<string>): (r: HitsOutcome)
    ensures |r.pairs| <= r.counted <= |lines|
    ensures r.failedAt.Some? ==> r.failedAt.value < |lines| && r.counted == r.failedAt.value + 1
  {
    HitsCountUpTo(lines, |lines|);
    HitsUpTo(lines, |lines|)
  }

  /**
   * The loop fails exactly when some line has no tab, and then at the first such
   * line; it counts every line up to and including the failing one.
   */
  lemma {:induction false} HitsCountUpTo(lines: seq<string>, n: nat)
    requires n <= |lines|
    ensures HitsUpTo(lines, n).failedAt.None? <==> forall j :: 0 <= j < n ==> '\t' in lines[j]
    ensures HitsUpTo(lines, n).failedAt.Some? ==>
      && HitsUpTo(lines, n).failedAt.value < n
      && '\t' !in lines[HitsUpTo(lines, n).failedAt.value]
      && forall j :: 0 <= j < HitsUpTo(lines, n).failedAt.value ==> '\t' in lines[j]
    ensures |HitsUpTo(lines, n).pairs| == if HitsUpTo(lines, n).failedAt.None? then n else HitsUpTo(lines, n).failedAt.value
    ensures HitsUpTo(lines, n).counted == if HitsUpTo(lines, n).failedAt.None? then n else HitsUpTo(lines, n).failedAt.value + 1
  {
    if n > 0 {
      HitsCountUpTo(lines, n - 1);
    }
  }

  /**
   * For n output lines: all of them bear a tab exactly when nothing fails, and
   * then n pairs are emitted and n hits counted; otherwise the first tab-free
   * line j stops the loop with j pairs emitted and j + 1 hits counted.
   */
  lemma HitsCount(lines: seq<string>)
    ensures Hits(lines).failedAt.None? <==> forall j :: 0 <= j < |lines| ==> '\t' in lines[j]
    ensures Hits(lines).failedAt.None? ==> |Hits(lines).pairs| == Hits(lines).counted == |lines|
    ensures Hits(lines).failedAt.Some? ==>
      var j := Hits(lines).failedAt.value;
      && j < |lines| && '\t' !in lines[j]
      && (forall k :: 0 <= k < j ==> '\t' in lines[k])
      && |Hits(lines).pairs| == j && Hits(lines).counted == j + 1
  {
    HitsCountUpTo(lines, |lines|);
  }

  /**
   * One more line after an unbroken run is counted; with a tab it is emitted,
   * without one the loop ends there.
   */
  lemma HitsStep(lines: seq<string>, i: nat)
    requires i < |lines| && HitsUpTo(lines, i).failedAt.None?
    ensures PyText.SplitOnce(lines[i], '\t').None? ==>
      HitsUpTo(lines, |lines|) == HitsOutcome(HitsUpTo(lines, i).pairs, HitsUpTo(lines, i).counted + 1, Some(i))
    ensures PyText.SplitOnce(lines[i], '\t').Some? ==>
      HitsUpTo(lines, i + 1) == HitsOutcome(
        HitsUpTo(lines, i).pairs + [PyText.SplitOnce(lines[i], '\t').value], HitsUpTo(lines, i).counted + 1, None)
  {
    if PyText.SplitOnce(lines[i], '\t').None? {
      HitsStopAtFailure(lines, i + 1, |lines|);
    }
  }

  /** `p` is the key and value of `line`: a tab-free key that, rejoined by a tab with the value, gives the line. */
  predicate IsHitOf(p: Pair, line: string) {
    '\t' !in p.0 && p.0 + "\t" + p.1 == line
  }

  /** Once a line has failed, later lines change nothing. */
  lemma {:induction false} HitsStopAtFailure(lines: seq<string>, i: nat, n: nat)
    requires i <= n <= |lines|
    requires HitsUpTo(lines, i).failedAt.Some?
    ensures HitsUpTo(lines, n) == HitsUpTo(lines, i)
    decreases n - i
  {
    if i < n {
      HitsStopAtFailure(lines, i, n - 1);
    }
  }

  /** The pairs are exactly the first-tab splits of the lines, in file order. */
  lemma {:induction false} HitsPairsUpTo(lines: seq<string>, n: nat)
    requires n <= |lines|
    ensures forall j :: 0 <= j < |HitsUpTo(lines, n).pairs| ==>
      PyText.SplitOnce(lines[j], '\t') == Some(HitsUpTo(lines, n).pairs[j])
  {
    if n > 0 {
      var before := HitsUpTo(lines, n - 1);
      var after := HitsUpTo(lines, n);
      HitsPairsUpTo(lines, n - 1);
      if before.failedAt.None? {
        HitsCountUpTo(lines, n - 1);
        var split := PyText.SplitOnce(lines[n - 1], '\t');
        if split.Some? {
          assert after.pairs == before.pairs + [split.value];
          forall j | 0 <= j < |after.pairs|
            ensures PyText.SplitOnce(lines[j], '\t') == Some(after.pairs[j])
          {
            if j < n - 1 {
              assert after.pairs[j] == before.pairs[j];
            }
          }
        }
      }
    }
  }

  /** Every emitted pair is the key and value of the line at its position, and it is that line's first-tab split. */
  lemma HitsPairs(lines: seq<string>)
    ensures forall j :: 0 <= j < |Hits(lines).pairs| ==>
      && PyText.SplitOnce(lines[j], '\t') == Some(Hits(lines).pairs[j])
      && IsHitOf(Hits(lines).pairs[j], lines[j])
  {
    HitsPairsUpTo(lines, |lines|);
  }

  datatype MapError = BadRecord | BadHit(line: nat)

  datatype Status = Done | Failed(error: MapError)

  /** The status the mapper ends a record with, given the outcome of its hit loop. */
  function StatusOf(outcome: HitsOutcome): (r: Status)
    ensures r == Done <==> outcome.failedAt.None?
    ensures outcome.failedAt.Some? ==> r == Failed(BadHit(outcome.failedAt.value))
  {
    match outcome.failedAt
    case None => Done
    case Some(i) => Failed(BadHit(i))
  }

  class Mapper {
    const settings: Settings
    const dbDir: string
    const opts: map<string, OptValue>
    const inputFile: string
    const outputFile: string

    /** The text of the engine's input file, as last written. */
    var inputText: string
    /** The value of the BLAST_HITS counter of group BLASTALL. */
    var hits: nat
    /** The pairs emitted so far, in order. */
    var emitted: seq<Pair>

    /**
     * Builds the mapper from a job configuration it accepts; the configurations
     * it refuses, and with which error, are those `Initialize` rejects.
     */
    constructor (jc: JobConf, levels: set<string>, parsers: Parsers)
      requires Initialize(jc, levels, parsers).Ok?
      ensures settings == Configure(jc, levels, parsers).value
      ensures dbDir == DbDir(jc[CacheArchivesKey]).value
      ensures opts == Options(settings, dbDir)
      ensures inputFile == InputFile && outputFile == OutputFile
      ensures inputText == "" && hits == 0 && emitted == []
    {
      var setup := Initialize(jc, levels, parsers).value;
      settings := setup.settings;
      dbDir := setup.dbDir;
      opts := setup.opts;
      inputFile := InputFile;
      outputFile := OutputFile;
      inputText := "";
      hits := 0;
      emitted := [];
    }

    /** Writes the one-record FASTA input file, replacing what was there. */
    method WriteInput(header: string, sequence: string)
      modifies this`inputText
      ensures inputText == Fasta.Record(header, sequence)
    {
      inputText := ">" + header + "\n" + sequence + "\n";
    }

    /**
     * The hit loop of `map` over the right-stripped lines of the engine's output
     * file: each line is counted, then split at its first tab and emitted.
     */
    method EmitHits(lines: seq<string>) returns (status: Status)
      modifies this`hits, this`emitted
      ensures emitted == old(emitted) + Hits(lines).pairs
      ensures hits == old(hits) + Hits(lines).counted
      ensures status == StatusOf(Hits(lines))
    {
      var i := 0;
      while i < |lines|
        invariant 0 <= i <= |lines|
        invariant HitsUpTo(lines, i).failedAt.None?
        invariant emitted == old(emitted) + HitsUpTo(lines, i).pairs
        invariant hits == old(hits) + HitsUpTo(lines, i).counted
      {
        HitsStep(lines, i);
        hits := hits + 1;
        var kv := PyText.SplitOnce(lines[i], '\t');
        if kv.None? {
          return Failed(BadHit(i));
        }
        emitted := emitted + [kv.value];
        i := i + 1;
      }
      status := Done;
    }

    /**
     * Maps one input record: split it, write it, run the engine, then count and
     * emit each hit line of the engine's output until one has no tab.
     */
    method Map(value: string, engine: Engine) returns (status: Status)
      modifies this
      ensures SplitRecord(value).None? ==>
        && status == Failed(BadRecord)
        && inputText == old(inputText) && hits == old(hits) && emitted == old(emitted)
      ensures SplitRecord(value).Some? ==>
        var record := SplitRecord(value).value;
        var outcome := Hits(ReadOutput(engine(opts, Fasta.Record(record.0, record.1))));
        && inputText == Fasta.Record(record.0, record.1)
        && emitted == old(emitted) + outcome.pairs
        && hits == old(hits) + outcome.counted
        && status == StatusOf(outcome)
    {
      var record := SplitRecord(value);
      if record.None? {
        return Failed(BadRecord);
      }
      var (header, sequence) := record.value;
      WriteInput(header, sequence);
      var lines := ReadOutput(engine(opts, inputText));
      status := EmitHits(lines);
    }
  }
}
