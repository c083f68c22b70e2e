/** The one-record FASTA text the mapper writes for the alignment engine. */
module Fasta {
  import opened Results
  import PyText

  /** `">%s\n%s\n" % (header, sequence)`: a header line and a sequence line. */
  function Record(header: string, sequence: string): (r: string)
    ensures |r| == |header| + |sequence| + 3
    ensures r[0] == '>' && r[|r| - 1] == '\n'
    ensures r[1..|header| + 1] == header && r[|header| + 1] == '\n'
    ensures r[|header| + 2..|r| - 1] == sequence
  {
    ">" + header + "\n" + sequence + "\n"
  }

  /** Reads a one-record text back: the header line and the rest without its final line break. */
  function Parse(text: string): Option<(string, string)> {
    if |text| >= 2 && text[0] == '>' && text[|text| - 1] == '\n' then
      PyText.SplitOnce(text[1..|text| - 1], '\n')
    else None
  }

  /** A header without line breaks survives the round trip, and so does any sequence. */
  lemma ParseRecord(header: string, sequence: string)
    requires '\n' !in header
    ensures Parse(Record(header, sequence)) == Some((header, sequence))
  {
    var text := Record(header, sequence);
    assert text[1..|text| - 1] == header + ['\n'] + sequence;
    PyText.SplitOnceUnique(text[1..|text| - 1], '\n', header, sequence);
  }
}
