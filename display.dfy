/** format_task: the one-line rendering of a task in a listing. Only the
    string is modelled; writing it to the console is not. */
module Display {
  import opened Tasks
  import opened Text

  /** The slice s[:n]: the first n characters, or all of s when it is shorter. */
  function Take(s: string, n: nat): (r: string)
    ensures |r| == (if |s| < n then |s| else n)
    ensures r <= s
  {
    if |s| <= n then s else s[..n]
  }

  /** Left-aligned field of the given width (the `:<width` format spec):
      s followed by spaces up to the width; never truncated. */
  function PadRight(s: string, width: nat): (r: string)
    ensures |r| == (if |s| < width then width else |s|)
    ensures s <= r
    ensures forall i :: |s| <= i < |r| ==> r[i] == ' '
  {
    if |s| >= width then s else s + seq(width - |s|, _ => ' ')
  }

  const TodoLabel: string := "\U{26AA} TODO"
  const InProgressLabel: string := "\U{1F7E1} IN-PROGRESS"
  const DoneLabel: string := "\U{1F7E2} DONE"
  const UnknownLabel: string := "UNKNOWN"

  /** The label of a status; the placeholder exactly for values outside
      the three known statuses, and a different label for each known one. */
  function StatusLabel(status: string): (shown: string)
    ensures shown == UnknownLabel <==> !IsStatus(status)
    ensures status == Todo ==> shown == TodoLabel
    ensures status == InProgress ==> shown == InProgressLabel
    ensures status == Done ==> shown == DoneLabel
    ensures |shown| <= 15
  {
    if status == Todo then TodoLabel
    else if status == InProgress then InProgressLabel
    else if status == Done then DoneLabel
    else UnknownLabel
  }

  /** The bracketed id at the start of the line: "[", the id left-aligned in
      3 columns (wider when the id text is longer), "] ". */
  function IdField(t: Task): (field: string)
    ensures |field| >= 6 && field[0] == '['
  {
    "[" + PadRight(IntToString(t.id), 3) + "] "
  }

  /** The display line of a task: id, status label, creation date, last
      update time and description, in that order. */
  function FormatTask(t: Task): (line: string)
    ensures |line| > |t.description| && line[0] == '['
    ensures line[|line| - |t.description|..] == t.description
  {
    IdField(t) + PadRight(StatusLabel(t.status), 15)
    + " Created: " + Take(t.createdAt, 10) + " | Updated: " + Take(t.updatedAt, 16) + " | "
    + t.description
  }

  /** The line shows the id right after the opening bracket. */
  lemma FormatTaskShowsId(t: Task)
    ensures (var text := IntToString(t.id);
      |FormatTask(t)| > |text| && FormatTask(t)[1..1 + |text|] == text)
  {
    var text := IntToString(t.id);
    var idField := IdField(t);
    LayoutHead(t);
    assert FormatTask(t)[..|idField|] == idField;
    var padded := PadRight(text, 3);
    assert idField[1..1 + |padded|] == padded;
    assert padded[..|text|] == text;
  }

  /** Where every field of the line sits, for any id and any timestamps. The
      id column is w characters wide (3, or the id's length when that is
      longer); c and u are the lengths of the two timestamp slices. The pieces
      listed cover the whole line, in this order. */
  lemma FormatTaskLayout(t: Task)
    ensures (var w := |IdField(t)| - 3;
      var c := |Take(t.createdAt, 10)|;
      var u := |Take(t.updatedAt, 16)|;
      var line := FormatTask(t);
      && |line| == w + 43 + c + u + |t.description|
      && line[..w + 3] == IdField(t)
      && line[w + 3..w + 18] == PadRight(StatusLabel(t.status), 15)
      && line[w + 18..w + 28] == " Created: "
      && line[w + 28..w + 28 + c] == Take(t.createdAt, 10)
      && line[w + 28 + c..w + 40 + c] == " | Updated: "
      && line[w + 40 + c..w + 40 + c + u] == Take(t.updatedAt, 16)
      && line[w + 40 + c + u..w + 43 + c + u] == " | "
      && line[w + 43 + c + u..] == t.description)
  {
    LayoutHead(t);
    LayoutDates(t);
    LayoutTail(t);
  }

  lemma LayoutHead(t: Task)
    ensures |FormatTask(t)| >= |IdField(t)| + 25
    ensures FormatTask(t)[..|IdField(t)|] == IdField(t)
    ensures FormatTask(t)[|IdField(t)|..|IdField(t)| + 15] == PadRight(StatusLabel(t.status), 15)
    ensures FormatTask(t)[|IdField(t)| + 15..|IdField(t)| + 25] == " Created: "
  {
    var line := FormatTask(t);
    var labelField := PadRight(StatusLabel(t.status), 15);
    var p2 := IdField(t) + labelField;
    var p3 := p2 + " Created: ";
    assert |p2| == |IdField(t)| + 15;
    PrefixesOf(t);
    PieceAt(p2, " Created: ", line);
    PrefixOf(p2, " Created: ", line);
    PieceAt(IdField(t), labelField, line);
    PrefixOf(IdField(t), labelField, line);
  }

  lemma LayoutDates(t: Task)
    ensures (var h := |IdField(t)| + 25;
      var c := |Take(t.createdAt, 10)|;
      var u := |Take(t.updatedAt, 16)|;
      && |FormatTask(t)| >= h + c + 12 + u
      && FormatTask(t)[h..h + c] == Take(t.createdAt, 10)
      && FormatTask(t)[h + c..h + c + 12] == " | Updated: "
      && FormatTask(t)[h + c + 12..h + c + 12 + u] == Take(t.updatedAt, 16))
  {
    var line := FormatTask(t);
    var p3 := IdField(t) + PadRight(StatusLabel(t.status), 15) + " Created: ";
    var p4 := p3 + Take(t.createdAt, 10);
    var p5 := p4 + " | Updated: ";
    var h, c := |IdField(t)| + 25, |Take(t.createdAt, 10)|;
    assert |p3| == h && |p4| == h + c && |p5| == h + c + 12;
    PrefixesOf(t);
    PieceAt(p5, Take(t.updatedAt, 16), line);
    PieceAt(p4, " | Updated: ", line);
    PieceAt(p3, Take(t.createdAt, 10), line);
  }

  lemma LayoutTail(t: Task)
    ensures (var k := |IdField(t)| + 37 + |Take(t.createdAt, 10)| + |Take(t.updatedAt, 16)|;
      && |FormatTask(t)| == k + 3 + |t.description|
      && FormatTask(t)[k..k + 3] == " | "
      && FormatTask(t)[k + 3..] == t.description)
  {
    var p6 := IdField(t) + PadRight(StatusLabel(t.status), 15) + " Created: " + Take(t.createdAt, 10)
      + " | Updated: " + Take(t.updatedAt, 16);
    var p7 := p6 + " | ";
    assert FormatTask(t) == p7 + t.description;
    PieceAt(p6, " | ", FormatTask(t));
  }

  /** The line starts with each of its partial concatenations, from the
      id field up to the last separator. */
  lemma PrefixesOf(t: Task)
    ensures (var p3 := IdField(t) + PadRight(StatusLabel(t.status), 15) + " Created: ";
      var p4 := p3 + Take(t.createdAt, 10);
      var p5 := p4 + " | Updated: ";
      var p6 := p5 + Take(t.updatedAt, 16);
      && p3 + Take(t.createdAt, 10) <= FormatTask(t)
      && p4 + " | Updated: " <= FormatTask(t)
      && p5 + Take(t.updatedAt, 16) <= FormatTask(t)
      && p6 + " | " <= FormatTask(t))
  {
    var line := FormatTask(t);
    var p3 := IdField(t) + PadRight(StatusLabel(t.status), 15) + " Created: ";
    var p4 := p3 + Take(t.createdAt, 10);
    var p5 := p4 + " | Updated: ";
    var p6 := p5 + Take(t.updatedAt, 16);
    var p7 := p6 + " | ";
    assert line == p7 + t.description;
    PrefixOf(p7, t.description, line);
    PrefixOf(p6, " | ", line);
    PrefixOf(p5, Take(t.updatedAt, 16), line);
    PrefixOf(p4, " | Updated: ", line);
  }

  /** A piece that follows prefix p at the start of line sits right after p. */
  lemma PieceAt(p: string, piece: string, line: string)
    requires p + piece <= line
    ensures line[|p|..|p| + |piece|] == piece
  {
    assert line[|p|..|p| + |piece|] == (p + piece)[|p|..];
  }

  lemma PrefixOf(p: string, piece: string, line: string)
    requires p + piece <= line
    ensures p <= line
  {
    assert line[..|p|] == (p + piece)[..|p|];
  }

  /** For an id below 1000 and ISO-8601 timestamps (at least "YYYY-MM-DDTHH:MM"),
      every field sits at a fixed column: the bracketed id in the first 6
      characters, the status label (or UNKNOWN) padded to 15 from column 6,
      the date part of createdAt at 31, the date, hour and minute of updatedAt
      at 53, the description from 72. */
  lemma FormatTaskColumns(t: Task)
    requires 0 <= t.id < 1000
    requires |t.createdAt| >= 10 && |t.updatedAt| >= 16
    ensures (var line := FormatTask(t);
      && |line| == 72 + |t.description|
      && line[..6] == IdField(t)
      && line[6..21] == PadRight(StatusLabel(t.status), 15)
      && line[31..41] == t.createdAt[..10]
      && line[53..69] == t.updatedAt[..16]
      && line[72..] == t.description)
  {
    FormatTaskLayout(t);
    NatToStringShort(t.id);
    assert |IdField(t)| == 6;
  }
}
