/** The trip-data endpoint (app/api/trips/data/route.ts) serves the two
    quarterly CSV files as one: the first file whole, then the second
    without its header line. */
module CsvStitch {
  import opened Text

  const Newline: char := '\n'

  /** `[q1Lines[0], ...q1Lines.slice(1), ...q2Lines.slice(1)].join("\n")`. */
  function Combine(q1: string, q2: string): (r: string)
    ensures Split(r, Newline) == Split(q1, Newline) + Split(q2, Newline)[1..]
    ensures |Split(r, Newline)| == |Split(q1, Newline)| + |Split(q2, Newline)| - 1
    ensures Split(r, Newline)[0] == Split(q1, Newline)[0]
    ensures IsPrefix(q1, r)
    ensures |Split(q2, Newline)| == 1 ==> r == q1
    ensures |Split(q2, Newline)| > 1 ==> r == q1 + [Newline] + Join(Split(q2, Newline)[1..], Newline)
  {
    StitchedLines(q1, q2);
    Join(Stitched(q1, q2), Newline)
  }

  /** The line list the endpoint joins. */
  function Stitched(q1: string, q2: string): seq<string> {
    var q1Lines := Split(q1, Newline);
    var q2Lines := Split(q2, Newline);
    [q1Lines[0]] + q1Lines[1..] + q2Lines[1..]
  }

  lemma StitchedLines(q1: string, q2: string)
    ensures var q1Lines := Split(q1, Newline);
      var q2Lines := Split(q2, Newline);
      var r := Join(Stitched(q1, q2), Newline);
      && Stitched(q1, q2) == q1Lines + q2Lines[1..]
      && Split(r, Newline) == Stitched(q1, q2)
      && (|q2Lines| == 1 ==> r == q1)
      && (|q2Lines| > 1 ==> r == q1 + [Newline] + Join(q2Lines[1..], Newline))
  {
    var q1Lines := Split(q1, Newline);
    var q2Lines := Split(q2, Newline);
    var lines := Stitched(q1, q2);
    assert [q1Lines[0]] + q1Lines[1..] == q1Lines;
    JoinSplit(q1, Newline);
    if |q2Lines| > 1 {
      JoinConcat(q1Lines, q2Lines[1..], Newline);
    } else {
      assert lines == q1Lines;
    }
    SplitJoin(lines, Newline);
  }

  /** The combined text has as many line breaks as the two files together:
      the second file loses its header line but the join adds one break. */
  lemma CombineLineBreaks(q1: string, q2: string)
    ensures multiset(Combine(q1, q2))[Newline] == multiset(q1)[Newline] + multiset(q2)[Newline]
  {
    SplitCount(Combine(q1, q2), Newline);
    SplitCount(q1, Newline);
    SplitCount(q2, Newline);
  }

  /** Right after the first file's lines comes the second file's first data
      line, never its header. */
  lemma SecondHeaderSkipped(q1: string, q2: string)
    requires |Split(q2, Newline)| > 1
    ensures Split(Combine(q1, q2), Newline)[|Split(q1, Newline)|] == Split(q2, Newline)[1]
  {
  }
}
