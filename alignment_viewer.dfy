/**
 * The alignment viewer in the browser: the coordinates printed at both ends
 * of each 60-column line of a pairwise alignment, the padding of the left
 * coordinates, and the statistics shown above the alignment.
 */
module AlignmentViewer {
  import opened Wrappers
  import opened Text
  import XmlTree
  import BlastReport
  import BlastStats
  import Search

  datatype Algorithm = Blastn | Blastp | Blastx | Tblastn | Tblastx

  function Name(a: Algorithm): string
  {
    match a
    case Blastn => "blastn"
    case Blastp => "blastp"
    case Blastx => "blastx"
    case Tblastn => "tblastn"
    case Tblastx => "tblastx"
  }

  /** The fields of an HSP the viewer reads. */
  datatype Hsp = Hsp(
    qstart: int, qend: int, sstart: int, send: int,
    qframe: int, sframe: int, length: nat,
    qseq: string, midline: string, sseq: string)

  // ---------------------------------------------------------------- units, signs and starts

  /** `qframe_unit`: how far one aligned query letter moves the query coordinate. */
  function QframeUnit(a: Algorithm): int
  {
    match a
    case Blastp => 1
    case Blastn => 1
    case Tblastn => 1
    case Blastx => 3
    case Tblastx => 3
  }

  /** `sframe_unit`. */
  function SframeUnit(a: Algorithm): int
  {
    match a
    case Blastp => 1
    case Blastx => 1
    case Blastn => 1
    case Tblastn => 3
    case Tblastx => 3
  }

  /** The alphabet the program compares in: only blastn compares nucleotides. */
  function ComparedIn(a: Algorithm): Search.SeqType
  {
    if a == Blastn then Search.Nucleotide else Search.Protein
  }

  /** The program as the search form lists it. */
  function ProgramOf(a: Algorithm): (p: Search.Program)
    ensures p in Search.Programs && p.name == Name(a)
  {
    match a
    case Blastn => Search.Programs[0]
    case Blastp => Search.Programs[1]
    case Blastx => Search.Programs[2]
    case Tblastn => Search.Programs[3]
    case Tblastx => Search.Programs[4]
  }

  /**
   * A coordinate moves three positions per letter exactly on a side whose
   * nucleotides are compared as protein, that is, translated.
   */
  lemma UnitsMarkTranslation(a: Algorithm)
    ensures QframeUnit(a) == 3 <==> ProgramOf(a).query == Search.Nucleotide && ComparedIn(a) == Search.Protein
    ensures SframeUnit(a) == 3 <==> ProgramOf(a).db == Search.Nucleotide && ComparedIn(a) == Search.Protein
    ensures QframeUnit(a) == 1 || QframeUnit(a) == 3
    ensures SframeUnit(a) == 1 || SframeUnit(a) == 3
  {
  }

  /** `qframe_sign`. */
  function QframeSign(h: Hsp): int
  {
    if h.qframe >= 0 then 1 else -1
  }

  /** `sframe_sign`. */
  function SframeSign(h: Hsp): int
  {
    if h.sframe >= 0 then 1 else -1
  }

  /** The signed move of the query coordinate per letter. */
  function QueryStep(a: Algorithm, h: Hsp): (d: int)
    ensures d != 0
    ensures d > 0 <==> h.qframe >= 0
  {
    QframeUnit(a) * QframeSign(h)
  }

  function SubjectStep(a: Algorithm, h: Hsp): (d: int)
    ensures d != 0
    ensures d > 0 <==> h.sframe >= 0
  {
    SframeUnit(a) * SframeSign(h)
  }

  /**
   * `nqseq`: the query coordinate the first line starts at. Blastn always
   * starts at `qstart`; the other programs start at `qend` on a reverse frame.
   */
  function NQSeq(a: Algorithm, h: Hsp): (r: int)
    ensures r == h.qstart || r == h.qend
    ensures r == h.qend && h.qstart != h.qend ==> a != Blastn && h.qframe < 0
    ensures a != Blastn && h.qframe < 0 ==> r == h.qend
  {
    if a == Blastn then h.qstart
    else if h.qframe >= 0 then h.qstart else h.qend
  }

  /** `nsseq`. */
  function NSSeq(a: Algorithm, h: Hsp): (r: int)
    ensures r == h.sstart || r == h.send
    ensures r == h.send && h.sstart != h.send ==> a != Blastn && h.sframe < 0
    ensures a != Blastn && h.sframe < 0 ==> r == h.send
  {
    if a == Blastn then h.sstart
    else if h.sframe >= 0 then h.sstart else h.send
  }

  // ---------------------------------------------------------------- lines of the alignment

  /** Columns per line. */
  const Chars: nat := 60

  /** `Math.ceil(length / chars)`. */
  function LineCount(length: nat): (n: nat)
    ensures n * Chars >= length
    ensures n > 0 ==> (n - 1) * Chars < length
  {
    (length + Chars - 1) / Chars
  }

  /** JavaScript's `slice(a, b)` with `0 <= a <= b`: both ends clamped to the string. */
  function Slice(s: string, a: nat, b: nat): (r: string)
    requires a <= b
    ensures |r| <= b - a
  {
    var lo := if a <= |s| then a else |s|;
    var hi := if b <= |s| then b else |s|;
    s[lo..hi]
  }

  /** The letters of an aligned sequence, gaps left out. */
  function Residues(s: string): (n: int)
    ensures 0 <= n <= |s|
  {
    |s| - CountChar(s, '-')
  }

  /** `s.length - s.split('-').length`: one less than the letters. */
  lemma FieldsCount(s: string)
    ensures |s| - |Fields(s, '-')| == Residues(s) - 1
  {
    FieldsCountChar(s);
  }

  lemma {:induction false} FieldsCountChar(s: string)
    ensures |Fields(s, '-')| == CountChar(s, '-') + 1
    decreases |s|
  {
    if '-' in s {
      var i := FirstIndexOfChar(s, '-');
      FieldsCountChar(s[i + 1..]);
      assert s == s[..i] + [s[i]] + s[i + 1..];
      CountCharAppend(s[..i] + [s[i]], s[i + 1..], '-');
      CountCharAppend(s[..i], [s[i]], '-');
      NoCount(s[..i]);
      assert CountChar([s[i]], '-') == 1 by {
        assert [s[i]][..0] == [];
      }
    } else {
      NoCount(s);
    }
  }

  lemma {:induction false} NoCount(s: string)
    requires '-' !in s
    ensures CountChar(s, '-') == 0
  {
    if s != [] {
      assert s[..|s| - 1][..] == s[..|s| - 1];
      NoCount(s[..|s| - 1]);
    }
  }

  /** The coordinates and text of one displayed line, query above subject. */
  datatype Row = Row(
    qstart: int, qseq: string, qend: int,
    midline: string,
    sstart: int, sseq: string, send: int)

  /** The column where line `i` (counting from 1) starts. */
  function Column(i: nat): nat
    requires i >= 1
  {
    Chars * (i - 1)
  }

  /** The query coordinate line `i` starts at: one step past every letter of the lines before it. */
  function QStartAt(a: Algorithm, h: Hsp, i: nat): int
    requires i >= 1
  {
    NQSeq(a, h) + Residues(Slice(h.qseq, 0, Column(i))) * QueryStep(a, h)
  }

  function SStartAt(a: Algorithm, h: Hsp, i: nat): int
    requires i >= 1
  {
    NSSeq(a, h) + Residues(Slice(h.sseq, 0, Column(i))) * SubjectStep(a, h)
  }

  /** Line `i`, stated outright rather than by the running coordinates. */
  function RowAt(a: Algorithm, h: Hsp, i: nat): Row
    requires i >= 1
  {
    var lq := Slice(h.qseq, Column(i), Column(i) + Chars);
    var ls := Slice(h.sseq, Column(i), Column(i) + Chars);
    Row(
      QStartAt(a, h, i), lq, QStartAt(a, h, i) + (Residues(lq) - 1) * QueryStep(a, h),
      Slice(h.midline, Column(i), Column(i) + Chars),
      SStartAt(a, h, i), ls, SStartAt(a, h, i) + (Residues(ls) - 1) * SubjectStep(a, h))
  }

  /** Every line of the alignment. */
  function Rows(a: Algorithm, h: Hsp): (r: seq<Row>)
    ensures |r| == LineCount(h.length)
  {
    seq(LineCount(h.length), k requires 0 <= k => RowAt(a, h, k + 1))
  }

  lemma SliceSplit(s: string, a: nat, b: nat, c: nat)
    requires a <= b <= c
    ensures Slice(s, a, b) + Slice(s, b, c) == Slice(s, a, c)
  {
  }

  lemma ResiduesAppend(x: string, y: string)
    ensures Residues(x + y) == Residues(x) + Residues(y)
  {
    CountCharAppend(x, y, '-');
  }

  /** Each line starts one step past the end of the line before. */
  lemma NextStart(a: Algorithm, h: Hsp, i: nat)
    requires i >= 1
    ensures QStartAt(a, h, i + 1) == RowAt(a, h, i).qend + QueryStep(a, h)
    ensures SStartAt(a, h, i + 1) == RowAt(a, h, i).send + SubjectStep(a, h)
  {
    var r := RowAt(a, h, i);
    var lq := Slice(h.qseq, Column(i), Column(i) + Chars);
    var ls := Slice(h.sseq, Column(i), Column(i) + Chars);
    assert r.qend == QStartAt(a, h, i) + (Residues(lq) - 1) * QueryStep(a, h);
    assert r.send == SStartAt(a, h, i) + (Residues(ls) - 1) * SubjectStep(a, h);
    NextCoordinate(h.qseq, NQSeq(a, h), QueryStep(a, h), i);
    NextCoordinate(h.sseq, NSSeq(a, h), SubjectStep(a, h), i);
  }

  /** The running coordinate of one sequence, from line `i` to line `i + 1`. */
  lemma NextCoordinate(s: string, first: int, step: int, i: nat)
    requires i >= 1
    ensures first + Residues(Slice(s, 0, Column(i + 1))) * step
         == first + Residues(Slice(s, 0, Column(i))) * step
            + (Residues(Slice(s, Column(i), Column(i) + Chars)) - 1) * step + step
  {
    assert Column(i + 1) == Column(i) + Chars;
    var before, line := Slice(s, 0, Column(i)), Slice(s, Column(i), Column(i + 1));
    SliceSplit(s, 0, Column(i), Column(i + 1));
    ResiduesAppend(before, line);
    Distribute(Residues(before), Residues(line), step);
    Distribute(Residues(line) - 1, 1, step);
  }

  lemma Associate(x: int, y: int, z: int)
    ensures x * y * z == x * (y * z)
  {
  }

  lemma Distribute(x: int, y: int, z: int)
    ensures (x + y) * z == x * z + y * z
  {
  }

  /** The displayed lines chain: each begins one step past the end of the one before. */
  lemma RowsChain(a: Algorithm, h: Hsp)
    ensures forall k :: 0 <= k < |Rows(a, h)| - 1 ==>
      Rows(a, h)[k + 1].qstart == Rows(a, h)[k].qend + QueryStep(a, h) &&
      Rows(a, h)[k + 1].sstart == Rows(a, h)[k].send + SubjectStep(a, h)
  {
    forall k | 0 <= k < |Rows(a, h)| - 1
      ensures Rows(a, h)[k + 1].qstart == Rows(a, h)[k].qend + QueryStep(a, h)
      ensures Rows(a, h)[k + 1].sstart == Rows(a, h)[k].send + SubjectStep(a, h)
    {
      NextStart(a, h, k + 1);
    }
  }

  /**
   * The telescoped end: the last line ends at the start coordinate moved by
   * one step for every letter but the first of the whole aligned sequence.
   */
  lemma LastEnd(a: Algorithm, h: Hsp)
    requires h.length > 0
    requires |h.qseq| <= h.length && |h.sseq| <= h.length
    ensures Rows(a, h)[|Rows(a, h)| - 1].qend == NQSeq(a, h) + (Residues(h.qseq) - 1) * QueryStep(a, h)
    ensures Rows(a, h)[|Rows(a, h)| - 1].send == NSSeq(a, h) + (Residues(h.sseq) - 1) * SubjectStep(a, h)
  {
    var n := LineCount(h.length);
    NextStart(a, h, n);
    assert Slice(h.qseq, 0, Column(n + 1)) == h.qseq;
    assert Slice(h.sseq, 0, Column(n + 1)) == h.sseq;
    Distribute(Residues(h.qseq) - 1, 1, QueryStep(a, h));
    Distribute(Residues(h.sseq) - 1, 1, SubjectStep(a, h));
  }

  /** The query text of the lines, back to back. */
  function QueryText(rows: seq<Row>): string
  {
    if rows == [] then "" else QueryText(rows[..|rows| - 1]) + rows[|rows| - 1].qseq
  }

  lemma {:induction false} QueryTextPrefix(a: Algorithm, h: Hsp, n: nat)
    requires n <= LineCount(h.length)
    ensures QueryText(Rows(a, h)[..n]) == Slice(h.qseq, 0, Chars * n)
  {
    if n > 0 {
      var rows := Rows(a, h);
      assert rows[..n][..n - 1] == rows[..n - 1];
      RowQuery(a, h, n);
      assert QueryText(rows[..n]) == QueryText(rows[..n - 1]) + Slice(h.qseq, Chars * (n - 1), Chars * n);
      QueryTextPrefix(a, h, n - 1);
      SliceSplit(h.qseq, 0, Chars * (n - 1), Chars * n);
    }
  }

  lemma RowQuery(a: Algorithm, h: Hsp, i: nat)
    requires i >= 1
    ensures RowAt(a, h, i).qseq == Slice(h.qseq, Chars * (i - 1), Chars * i)
  {
    assert Column(i) + Chars == Chars * i;
  }

  /** The lines cut the query into consecutive pieces: nothing is shown twice or skipped. */
  lemma RowsCoverQuery(a: Algorithm, h: Hsp)
    requires |h.qseq| <= h.length
    ensures QueryText(Rows(a, h)) == h.qseq
  {
    QueryTextPrefix(a, h, LineCount(h.length));
    assert Rows(a, h)[..LineCount(h.length)] == Rows(a, h);
  }

  /** The coordinate loop of `render`. */
  method Render(a: Algorithm, h: Hsp) returns (rows: seq<Row>)
    ensures rows == Rows(a, h)
  {
    var lines := LineCount(h.length);
    var nq := NQSeq(a, h);
    var ns := NSSeq(a, h);
    rows := [];
    var i := 1;
    while i <= lines
      invariant 1 <= i <= lines + 1
      invariant |rows| == i - 1
      invariant forall k :: 0 <= k < i - 1 ==> rows[k] == RowAt(a, h, k + 1)
      invariant nq == QStartAt(a, h, i) && ns == SStartAt(a, h, i)
    {
      var row;
      row, nq, ns := RenderLine(a, h, i, nq, ns);
      RowsGrow(a, h, rows, row);
      rows := rows + [row];
      i := i + 1;
    }
    RowsAre(a, h, rows);
  }

  lemma RowsGrow(a: Algorithm, h: Hsp, rows: seq<Row>, row: Row)
    requires forall k :: 0 <= k < |rows| ==> rows[k] == RowAt(a, h, k + 1)
    requires row == RowAt(a, h, |rows| + 1)
    ensures forall k :: 0 <= k < |rows| + 1 ==> (rows + [row])[k] == RowAt(a, h, k + 1)
  {
  }

  lemma RowsAre(a: Algorithm, h: Hsp, rows: seq<Row>)
    requires |rows| == LineCount(h.length)
    requires forall k :: 0 <= k < |rows| ==> rows[k] == RowAt(a, h, k + 1)
    ensures rows == Rows(a, h)
  {
  }

  /** One pass of the loop: line `i` from the running coordinates, and the next ones. */
  method RenderLine(a: Algorithm, h: Hsp, i: nat, nq: int, ns: int) returns (row: Row, nq': int, ns': int)
    requires i >= 1
    requires nq == QStartAt(a, h, i) && ns == SStartAt(a, h, i)
    ensures row == RowAt(a, h, i)
    ensures nq' == QStartAt(a, h, i + 1) && ns' == SStartAt(a, h, i + 1)
  {
    var start := Chars * (i - 1);
    var stop := start + Chars;

    var lqseq := Slice(h.qseq, start, stop);
    var lqend;
    lqend, nq' := Advance(nq, lqseq, QframeUnit(a), QframeSign(h));

    var lmseq := Slice(h.midline, start, stop);

    var lsseq := Slice(h.sseq, start, stop);
    var lsend;
    lsend, ns' := Advance(ns, lsseq, SframeUnit(a), SframeSign(h));

    row := Row(nq, lqseq, lqend, lmseq, ns, lsseq, lsend);
    ghost var qstep, sstep := QueryStep(a, h), SubjectStep(a, h);
    assert lqend == nq + (Residues(lqseq) - 1) * qstep && nq' == lqend + qstep;
    assert lsend == ns + (Residues(lsseq) - 1) * sstep && ns' == lsend + sstep;
    assert start == Column(i);
    assert row == RowAt(a, h, i);
    NextStart(a, h, i);
  }

  /**
   * The end coordinate of one line: the start moved by one step, of `unit` letters in the
   * direction `sign`, per residue after the first; and the start of the next line one step further.
   */
  method Advance(start: int, chunk: string, unit: int, sign: int) returns (end: int, next: int)
    ensures end == start + (Residues(chunk) - 1) * (unit * sign)
    ensures next == end + unit * sign
  {
    FieldsCount(chunk);
    end := start + (|chunk| - |Fields(chunk, '-')|) * unit * sign;
    Associate(|chunk| - |Fields(chunk, '-')|, unit, sign);
    next := end + unit * sign;
  }

  // ---------------------------------------------------------------- formatCoords

  /** What `formatCoords` gives back. */
  datatype Padded = Undefined | Shown(text: string) | RangeError

  function Spaces(n: nat): (r: string)
    ensures |r| == n && AllSpace(r)
  {
    seq(n, _ => ' ')
  }

  /**
   * `formatCoords`: nothing when the width is 0, otherwise `Array(padding + 1).join(' ')`
   * before the number, which has `padding` spaces, none for a padding of -1,
   * and throws for an array length below zero.
   */
  function FormatCoords(coord: int, width: int): (r: Padded)
    ensures r.Undefined? <==> width == 0
    ensures r.RangeError? <==> width != 0 && width < |IntToString(coord)| - 1
    ensures r.Shown? ==> EndsWith(r.text, IntToString(coord)) && AllSpace(r.text[..|r.text| - |IntToString(coord)|])
    ensures r.Shown? && width >= |IntToString(coord)| ==> |r.text| == width
  {
    if width == 0 then Undefined
    else
      var digits := IntToString(coord);
      var padding := width - |digits|;
      if padding + 1 < 0 then RangeError
      else
        var pad := if padding + 1 == 0 then "" else Spaces(padding);
        assert (pad + digits)[..|pad|] == pad;
        assert (pad + digits)[|pad|..] == digits;
        Shown(pad + digits)
  }

  /** The width `render` pads to: the most digits among the four end coordinates. */
  function Width(h: Hsp): (w: nat)
    ensures w >= |IntToString(h.qstart)| && w >= |IntToString(h.qend)|
    ensures w >= |IntToString(h.sstart)| && w >= |IntToString(h.send)|
    ensures w == |IntToString(h.qstart)| || w == |IntToString(h.qend)| ||
            w == |IntToString(h.sstart)| || w == |IntToString(h.send)|
  {
    Max(Max(|IntToString(h.qstart)|, |IntToString(h.qend)|),
        Max(|IntToString(h.sstart)|, |IntToString(h.send)|))
  }

  function Max(x: nat, y: nat): nat
  {
    if x >= y then x else y
  }

  /** The start coordinate of the first line is padded to the common width. */
  lemma FirstCoordinatesAligned(a: Algorithm, h: Hsp)
    ensures FormatCoords(NQSeq(a, h), Width(h)).Shown?
    ensures |FormatCoords(NQSeq(a, h), Width(h)).text| == Width(h)
    ensures FormatCoords(NSSeq(a, h), Width(h)).Shown?
    ensures |FormatCoords(NSSeq(a, h), Width(h)).text| == Width(h)
  {
    assert Width(h) >= 1;
  }

  // ---------------------------------------------------------------- getStats

  const BaseStatKeys: seq<string> := ["score", "e value", "identity", "gaps", "coverage"]

  /** The keys of `getStats`, in insertion order; tblastx falls through to blastp's case. */
  function StatKeys(a: Algorithm): (r: seq<string>)
    ensures |r| > |BaseStatKeys| && r[..|BaseStatKeys|] == BaseStatKeys
  {
    var extra := match a
      case Tblastx => ["frame", "positives"]
      case Blastp => ["positives"]
      case Blastn => ["strand"]
      case Blastx => ["query frame"]
      case Tblastn => ["hit frame"];
    BaseStatKeys + extra
  }

  /** The strand shown for blastn, `+` for every positive frame. */
  function ViewerStrand(qframe: int, sframe: int): (r: string)
    ensures |r| == 3 && r[1] == '/'
    ensures r[0] == '+' <==> qframe > 0
    ensures r[2] == '+' <==> sframe > 0
  {
    (if qframe > 0 then "+" else "-") + "/" + (if sframe > 0 then "+" else "-")
  }

  /**
   * The viewer's extra statistics follow the report's: positives, query frame
   * and hit frame for the same programs; the strand for blastn only, since the
   * report's tblastx strand is shown as a frame pair instead.
   */
  lemma StatsAgreeWithReport(a: Algorithm)
    ensures "positives" in StatKeys(a) <==> "Positives" in BlastStats.StatKeys(XmlTree.Str(Name(a)))
    ensures "query frame" in StatKeys(a) <==> "Query Frame" in BlastStats.StatKeys(XmlTree.Str(Name(a)))
    ensures "hit frame" in StatKeys(a) <==> "Hit Frame" in BlastStats.StatKeys(XmlTree.Str(Name(a)))
    ensures "strand" in StatKeys(a) <==> "Strand" in BlastStats.StatKeys(XmlTree.Str(Name(a))) && a != Tblastx
    ensures "frame" in StatKeys(a) <==> "Strand" in BlastStats.StatKeys(XmlTree.Str(Name(a))) && a == Tblastx
  {
    ViewerKeys(a);
    ReportKeys(Name(a));
  }

  lemma ViewerKeys(a: Algorithm)
    ensures "positives" in StatKeys(a) <==> a == Blastp || a == Tblastx
    ensures "query frame" in StatKeys(a) <==> a == Blastx
    ensures "hit frame" in StatKeys(a) <==> a == Tblastn
    ensures "strand" in StatKeys(a) <==> a == Blastn
    ensures "frame" in StatKeys(a) <==> a == Tblastx
  {
    assert StatKeys(a)[..5] == BaseStatKeys;
  }

  lemma ReportKeys(name: string)
    ensures "Positives" in BlastStats.StatKeys(XmlTree.Str(name)) <==> name == "blastp" || name == "tblastx"
    ensures "Query Frame" in BlastStats.StatKeys(XmlTree.Str(name)) <==> name == "blastx"
    ensures "Hit Frame" in BlastStats.StatKeys(XmlTree.Str(name)) <==> name == "tblastn"
    ensures "Strand" in BlastStats.StatKeys(XmlTree.Str(name)) <==> name == "blastn" || name == "tblastx"
  {
    var r := BlastStats.StatKeys(XmlTree.Str(name));
    assert r[..4] == ["Score", "Expect", "Identities", "Gaps"];
  }

  /** The viewer's strand agrees with the report's strand once the report tests for a positive frame. */
  lemma StrandAgreesWithCorrectedReport(h: BlastReport.Hsp)
    ensures ViewerStrand(h.qframe, h.hframe)[0] == '+' <==> BlastStats.StartsWithPlus(BlastStats.StrandCorrected(h))
    ensures ViewerStrand(h.qframe, h.hframe)[2] == '+' <==> BlastStats.EndsWithPlus(BlastStats.StrandCorrected(h))
  {
  }
}
