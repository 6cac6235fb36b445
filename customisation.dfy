/**
 * The site-specific hyperlink table mixed into the application: an ordered
 * list of sequence-id patterns, the first of which that matches decides the
 * genome-browser (and, for one species, Uniprot) links appended to a hit's
 * definition line.
 *
 * Each pattern is modelled by an explicit predicate over the characters of the
 * id (a literal head, `.` as "any character but a newline", a greedy `\d*`
 * and a literal tail), so the regular-expression engine itself is not part of
 * the model.
 */
module Customisation {
  import opened Wrappers
  import opened Text

  /** `hit_coordinates`: `[min, max]` of the subject coordinates, or `[nil, nil]` when there are none. */
  type Coordinates = Option<(int, int)>

  /** `hit_coordinates.join('..')`: nil prints as the empty string. */
  function CoordinatesText(c: Coordinates): string
  {
    match c
    case None => ".."
    case Some((lo, hi)) => IntToString(lo) + ".." + IntToString(hi)
  }

  // ---------------------------------------------------------------- pattern pieces

  /** `.`: any character except a newline, at position `k`. */
  predicate AnyAt(s: string, k: nat)
  {
    k < |s| && s[k] != '\n'
  }

  /**
   * `head\d*tail` matched at position `k`, giving the digits. A digit run is
   * followed here only by tails that do not start with a digit, so the greedy
   * run is the only one that can match.
   */
  function DigitsAfter(s: string, k: nat, head: string, tail: string): (r: Option<string>)
    ensures r.Some? ==> AllDigits(r.value) && MatchAt(s, head + r.value + tail, k)
    ensures r.Some? <==> MatchAt(s, head, k) && MatchAt(s, tail, DigitsEnd(s, k + |head|))
  {
    if MatchAt(s, head, k) && MatchAt(s, tail, DigitsEnd(s, k + |head|)) then
      var e := DigitsEnd(s, k + |head|);
      var d := s[k + |head|..e];
      assert s[k..k + |head + d + tail|] == s[k..k + |head|] + d + s[e..e + |tail|];
      Some(d)
    else None
  }

  /** `((scaffold\d*)|(C\d*)) ` at `k`: the alternatives in order, the first that matches wins. */
  function GenomicName(s: string, k: nat): (r: Option<string>)
    ensures r.Some? ==> MatchAt(s, r.value + " ", k) && GenomicShape(r.value)
  {
    match DigitsAfter(s, k, "scaffold", " ")
    case Some(d) =>
      assert ("scaffold" + d)[8..] == d;
      assert "scaffold" + d + " " == ("scaffold" + d) + " ";
      Some("scaffold" + d)
    case None =>
      match DigitsAfter(s, k, "C", " ")
      case Some(d) =>
        assert ("C" + d)[1..] == d;
        assert "C" + d + " " == ("C" + d) + " ";
        Some("C" + d)
      case None => None
  }

  /** The leftmost position at or after `p` where `at` matches, and what it captures there. */
  function Leftmost(s: string, p: nat, at: (string, nat) -> Option<string>): (r: Option<string>)
    ensures r.Some? ==> exists j :: p <= j <= |s| && at(s, j) == r && forall i :: p <= i < j ==> at(s, i).None?
    ensures r.None? ==> forall j :: p <= j <= |s| ==> at(s, j).None?
    decreases |s| + 1 - p
  {
    if p > |s| then None
    else if at(s, p).Some? then at(s, p)
    else Leftmost(s, p + 1, at)
  }

  // ---------------------------------------------------------------- the rules

  /**
   * One row of the table, with the variable part its pattern matched: the
   * whole capture where it has no fixed shape, and the digit run where the
   * capture is a fixed head and tail around `\d*`.
   */
  datatype Rule =
    | PbarCds(id: string)        // /^lcl\|(PB.*-RA) /
    | PbarGenomic(digits: string) // /^lcl\|pbar_(scf\d*) /
    | Sinv                       // /lcl\|SI2.2.0/
    | SinvGenomic(id: string)    // /^lcl\|(Si_gnF.scaffold\d*) /
    | LhumCds(digits: string)    // /^lcl\|(LH\d*-RA) /
    | LhumGenomic(digits: string) // /^lcl\|(scf\d*) /
    | AcepCds(digits: string)    // /^lcl\|(ACEP_\d*-RA) /
    | AcepGenomic(digits: string) // /^lcl\|Acep_(scaffold\d*) /
    | CfloCds(digits: string)    // /^lcl\|Cflo_(\d*)--/
    | CfloGenomic(id: string)    // /^lcl\|Cflo_gn3.3_((scaffold\d*)|(C\d*)) /
    | HsalCds(digits: string)    // /^lcl\|Hsal_(\d*)--/
    | HsalGenomic(id: string)    // /^lcl\|Hsal_gn3.3_((scaffold\d*)|(C\d*)) /

  /** The pattern's first capture, `$1`. */
  function Capture(rule: Rule): string
  {
    match rule
    case PbarCds(id) => id
    case PbarGenomic(d) => "scf" + d
    case Sinv => ""
    case SinvGenomic(id) => id
    case LhumCds(d) => "LH" + d + "-RA"
    case LhumGenomic(d) => "scf" + d
    case AcepCds(d) => "ACEP_" + d + "-RA"
    case AcepGenomic(d) => "scaffold" + d
    case CfloCds(d) => d
    case CfloGenomic(id) => id
    case HsalCds(d) => d
    case HsalGenomic(id) => id
  }

  /** `(scaffold\d*)|(C\d*)`: the shape of a Cflo or Hsal genomic name. */
  predicate GenomicShape(id: string)
  {
    (StartsWith(id, "scaffold") && AllDigits(id[8..])) || (StartsWith(id, "C") && AllDigits(id[1..]))
  }

  /** What a row's pattern says about the sequence id it matched, in terms of what it captured. */
  predicate Captured(rule: Rule, s: string)
  {
    match rule
    case PbarCds(id) => StartsWith(s, "lcl|" + id + " ") && StartsWith(id, "PB") && EndsWith(id, "-RA") && '\n' !in id
    case PbarGenomic(d) => AllDigits(d) && MatchAt(s, "lcl|pbar_scf" + d + " ", 0)
    case Sinv => exists j :: 0 <= j <= |s| && SinvTagAt(s, j).Some?
    case SinvGenomic(id) => StartsWith(s, "lcl|" + id + " ") && |id| >= 15 && StartsWith(id, "Si_gnF")
                            && id[6] != '\n' && id[7..15] == "scaffold" && AllDigits(id[15..])
    case LhumCds(d) => AllDigits(d) && MatchAt(s, "lcl|LH" + d + "-RA ", 0)
    case LhumGenomic(d) => AllDigits(d) && MatchAt(s, "lcl|scf" + d + " ", 0)
    case AcepCds(d) => AllDigits(d) && MatchAt(s, "lcl|ACEP_" + d + "-RA ", 0)
    case AcepGenomic(d) => AllDigits(d) && MatchAt(s, "lcl|Acep_scaffold" + d + " ", 0)
    case CfloCds(d) => AllDigits(d) && MatchAt(s, "lcl|Cflo_" + d + "--", 0)
    case CfloGenomic(id) => StartsWith(s, "lcl|Cflo_gn3") && AnyAt(s, 12) && MatchAt(s, "3_", 13)
                            && MatchAt(s, id + " ", 15) && GenomicShape(id)
    case HsalCds(d) => AllDigits(d) && MatchAt(s, "lcl|Hsal_" + d + "--", 0)
    case HsalGenomic(id) => StartsWith(s, "lcl|Hsal_gn3") && AnyAt(s, 12) && MatchAt(s, "3_", 13)
                            && MatchAt(s, id + " ", 15) && GenomicShape(id)
  }

  /** The row a rule belongs to. */
  function Row(rule: Rule): nat
  {
    match rule
    case PbarCds(_) => 0
    case PbarGenomic(_) => 1
    case Sinv => 2
    case SinvGenomic(_) => 3
    case LhumCds(_) => 4
    case LhumGenomic(_) => 5
    case AcepCds(_) => 6
    case AcepGenomic(_) => 7
    case CfloCds(_) => 8
    case CfloGenomic(_) => 9
    case HsalCds(_) => 10
    case HsalGenomic(_) => 11
  }

  /** Number of rows in the table. */
  const RuleCount: nat := 12

  /** `/^lcl\|(PB.*-RA) /`: the greedy `.*` stops at the last `-RA ` of the first line. */
  function PbarCdsId(s: string): (r: Option<string>)
    ensures r.Some? ==> StartsWith(s, "lcl|" + r.value + " ")
    ensures r.Some? ==> StartsWith(r.value, "PB") && EndsWith(r.value, "-RA") && '\n' !in r.value
  {
    if !StartsWith(s, "lcl|PB") then None
    else
      match LastMatchIn(s, "-RA ", 6, LineEnd(s, 6))
      case None => None
      case Some(j) =>
        PbarIdShape(s, j);
        Some(s[4..j + 3])
  }

  /** The id between `lcl|` and the `-RA ` at `j` on the first line has the shape the pattern requires. */
  lemma PbarIdShape(s: string, j: nat)
    requires StartsWith(s, "lcl|PB") && 6 <= j && j + 4 <= LineEnd(s, 6) && MatchAt(s, "-RA ", j)
    ensures var id := s[4..j + 3];
            StartsWith(s, "lcl|" + id + " ") && StartsWith(id, "PB") && EndsWith(id, "-RA") && '\n' !in id
  {
    var id := s[4..j + 3];
    PbarIdEnclosed(s, j);
    PbarIdEnds(s, j);
    forall i | 0 <= i < |id|
      ensures id[i] != '\n'
    {
      if i >= 2 {
        assert 6 <= 4 + i < LineEnd(s, 6);
      } else {
        assert s[..6] == "lcl|PB";
      }
    }
  }

  lemma PbarIdEnclosed(s: string, j: nat)
    requires StartsWith(s, "lcl|PB") && 6 <= j && j + 4 <= |s| && MatchAt(s, "-RA ", j)
    ensures StartsWith(s, "lcl|" + s[4..j + 3] + " ")
  {
    var id := s[4..j + 3];
    assert s[j..j + 4] == "-RA ";
    assert s[j + 3] == ' ';
    assert s[..4] == s[..6][..4] == "lcl|";
    assert s[..j + 4] == s[..4] + id + [s[j + 3]];
  }

  lemma PbarIdEnds(s: string, j: nat)
    requires StartsWith(s, "lcl|PB") && 6 <= j && j + 4 <= |s| && MatchAt(s, "-RA ", j)
    ensures StartsWith(s[4..j + 3], "PB") && EndsWith(s[4..j + 3], "-RA")
  {
    var id := s[4..j + 3];
    assert id[..2] == s[..6][4..6] == "PB";
    assert id[|id| - 3..] == s[j..j + 3] == s[j..j + 4][..3] == "-RA";
  }

  /** `/^lcl\|(Si_gnF.scaffold\d*) /`. */
  function SinvGenomicId(s: string): (r: Option<string>)
    ensures r.Some? ==> StartsWith(s, "lcl|" + r.value + " ")
    ensures r.Some? ==> |r.value| >= 15 && StartsWith(r.value, "Si_gnF") && r.value[6] != '\n' && r.value[7..15] == "scaffold" && AllDigits(r.value[15..])
  {
    if !(StartsWith(s, "lcl|Si_gnF") && AnyAt(s, 10)) then None
    else
      match DigitsAfter(s, 11, "scaffold", " ")
      case None => None
      case Some(d) =>
        var id := s[4..11] + "scaffold" + d;
        SinvIdShape(s, d);
        Some(id)
  }

  lemma SinvIdShape(s: string, d: string)
    requires StartsWith(s, "lcl|Si_gnF") && AnyAt(s, 10) && AllDigits(d) && MatchAt(s, "scaffold" + d + " ", 11)
    ensures var id := s[4..11] + "scaffold" + d;
            && StartsWith(s, "lcl|" + id + " ")
            && |id| >= 15 && StartsWith(id, "Si_gnF") && id[6] != '\n' && id[7..15] == "scaffold" && AllDigits(id[15..])
  {
    var id := s[4..11] + "scaffold" + d;
    assert s[..10][..4] == "lcl|" && s[..10][4..10] == "Si_gnF";
    assert MatchAt(s, "lcl|", 0);
    assert MatchAt(s, s[4..11], 4);
    MatchAtJoin(s, s[4..11], "scaffold" + d + " ", 4);
    assert s[4..11] + ("scaffold" + d + " ") == id + " ";
    MatchAtJoin(s, "lcl|", id + " ", 4 - 4);
    assert "lcl|" + (id + " ") == "lcl|" + id + " ";
    assert id[..6] == s[4..10];
    assert id[15..] == d && id[7..15] == "scaffold";
  }

  /** The `.` and `3_` between `gn3` and the genomic name in the Cflo and Hsal patterns. */
  function GenomicAfter(s: string, head: string): (r: Option<string>)
    requires |head| == 12
    ensures r.Some? ==> StartsWith(s, head) && AnyAt(s, 12) && MatchAt(s, "3_", 13) && MatchAt(s, r.value + " ", 15)
  {
    if StartsWith(s, head) && AnyAt(s, 12) && MatchAt(s, "3_", 13) then GenomicName(s, 15) else None
  }

  /** `/lcl\|SI2.2.0/` at `j`, giving the matched text. */
  function SinvTagAt(s: string, j: nat): (r: Option<string>)
    ensures r.Some? ==> MatchAt(s, "lcl|SI2", j) && AnyAt(s, j + 7) && MatchAt(s, "2", j + 8) && AnyAt(s, j + 9) && MatchAt(s, "0", j + 10)
  {
    if MatchAt(s, "lcl|SI2", j) && AnyAt(s, j + 7) && MatchAt(s, "2", j + 8) && AnyAt(s, j + 9) && MatchAt(s, "0", j + 10)
    then Some(s[j..j + 11]) else None
  }

  /** The rule in row `k`, when its pattern matches `s`. */
  function RuleAt(k: nat, s: string): (r: Option<Rule>)
    requires k < RuleCount
    ensures r.Some? ==> Row(r.value) == k && Captured(r.value, s)
  {
    match k
    case 0 => match PbarCdsId(s) { case Some(id) => Some(PbarCds(id)) case None => None }
    case 1 => match DigitsAfter(s, 0, "lcl|pbar_scf", " ") { case Some(d) => Some(PbarGenomic(d)) case None => None }
    case 2 => if Leftmost(s, 0, SinvTagAt).Some? then Some(Sinv) else None
    case 3 => match SinvGenomicId(s) { case Some(id) => Some(SinvGenomic(id)) case None => None }
    case 4 => match DigitsAfter(s, 0, "lcl|LH", "-RA ") { case Some(d) => Some(LhumCds(d)) case None => None }
    case 5 => match DigitsAfter(s, 0, "lcl|scf", " ") { case Some(d) => Some(LhumGenomic(d)) case None => None }
    case 6 => match DigitsAfter(s, 0, "lcl|ACEP_", "-RA ") { case Some(d) => Some(AcepCds(d)) case None => None }
    case 7 => match DigitsAfter(s, 0, "lcl|Acep_scaffold", " ") { case Some(d) => Some(AcepGenomic(d)) case None => None }
    case 8 => match DigitsAfter(s, 0, "lcl|Cflo_", "--") { case Some(d) => Some(CfloCds(d)) case None => None }
    case 9 => match GenomicAfter(s, "lcl|Cflo_gn3") { case Some(id) => Some(CfloGenomic(id)) case None => None }
    case 10 => match DigitsAfter(s, 0, "lcl|Hsal_", "--") { case Some(d) => Some(HsalCds(d)) case None => None }
    case 11 => match GenomicAfter(s, "lcl|Hsal_gn3") { case Some(id) => Some(HsalGenomic(id)) case None => None }
  }

  /** The first row at or after `k` whose pattern matches: the `case` tries its `when`s in order. */
  function FirstRule(s: string, k: nat): (r: Option<Rule>)
    requires k <= RuleCount
    ensures r.None? <==> forall j :: k <= j < RuleCount ==> RuleAt(j, s).None?
    ensures r.Some? ==> exists j :: k <= j < RuleCount && RuleAt(j, s) == r
                                    && forall i :: k <= i < j ==> RuleAt(i, s).None?
    ensures r.Some? ==> Captured(r.value, s)
    decreases RuleCount - k
  {
    if k == RuleCount then None
    else if RuleAt(k, s).Some? then RuleAt(k, s)
    else FirstRule(s, k + 1)
  }

  /** The rule that decides the line for a sequence id, if any. */
  function MatchingRule(s: string): Option<Rule>
  {
    FirstRule(s, 0)
  }

  // ---------------------------------------------------------------- the links

  const BrowserBase: string := "http://genomes.arc.georgetown.edu/cgi-bin/gbrowse/"
  /** How every row's appended text starts. */
  const LinkOpen: string := " [<a href='" + BrowserBase
  const UniprotBase: string := "http://www.uniprot.org/uniprot/"

  /** What Ruby raises when `match(...)` found nothing and `[1]` is taken of nil. */
  const NilIndexError: string := "undefined method `[]' for nil:NilClass"

  /** The genome-browser page of `name` in the browser database `db`. */
  function Browser(db: string, name: string): string
  {
    BrowserBase + db + "/?name=" + name
  }

  /** The text most rows append after the default link: one genome-browser link. */
  function BrowserLink(db: string, name: string): (r: string)
    ensures StartsWith(r, LinkOpen) && EndsWith(r, "]\n")
    ensures EndsWith(r, NameEnd(name))
  {
    var r := " [<a href='" + Browser(db, name) + "'>Genome Browser</a>]\n";
    BrowserLinkOpens(db, name);
    BrowserLinkEnds(db, name);
    r
  }

  lemma BrowserLinkOpens(db: string, name: string)
    ensures StartsWith(" [<a href='" + Browser(db, name) + "'>Genome Browser</a>]\n", LinkOpen)
  {
    var r := " [<a href='" + Browser(db, name) + "'>Genome Browser</a>]\n";
    assert r[..|LinkOpen|] == LinkOpen;
  }

  lemma BrowserLinkEnds(db: string, name: string)
    ensures EndsWith(" [<a href='" + Browser(db, name) + "'>Genome Browser</a>]\n", NameEnd(name))
    ensures EndsWith(" [<a href='" + Browser(db, name) + "'>Genome Browser</a>]\n", "]\n")
  {
    var r := " [<a href='" + Browser(db, name) + "'>Genome Browser</a>]\n";
    assert r == " [<a href='" + BrowserBase + db + NameEnd(name);
  }

  /** How a genome-browser link to `name` ends. */
  function NameEnd(name: string): string
  {
    "/?name=" + name + "'>Genome Browser</a>]\n"
  }

  /** How the Uniprot link to `uid` ends a line. */
  function UniprotEnd(uid: string): string
  {
    " [<a href='" + UniprotBase + uid + "'>Uniprot</a>]\n"
  }

  /** The fire-ant protein row's text: a genome-browser link to the locus and a Uniprot link. */
  function SinvLinks(bid: string, uid: string): (r: string)
    ensures StartsWith(r, LinkOpen) && EndsWith(r, "]\n")
    ensures EndsWith(r, UniprotEnd(uid))
  {
    var r := " [<a href='" + Browser("sinvicta_1", bid) + "'>Genome Browser</a>]" + UniprotEnd(uid);
    assert r[..|LinkOpen|] == LinkOpen;
    r
  }

  /** `/locus=(Si_gnF.scaffold\d*)\[/` at `j`, giving the capture. */
  function LocusAt(s: string, j: nat): (r: Option<string>)
    ensures r.Some? ==> MatchAt(s, "locus=" + r.value + "[", j) && StartsWith(r.value, "Si_gnF")
  {
    if MatchAt(s, "locus=Si_gnF", j) && AnyAt(s, j + 12) then
      match DigitsAfter(s, j + 13, "scaffold", "[")
      case None => None
      case Some(d) =>
        LocusShape(s, j, d);
        Some("Si_gnF" + [s[j + 12]] + "scaffold" + d)
    else None
  }

  /** The locus capture, with the text around it, sits at `j`. */
  lemma LocusShape(s: string, j: nat, d: string)
    requires MatchAt(s, "locus=Si_gnF", j) && AnyAt(s, j + 12) && MatchAt(s, "scaffold" + d + "[", j + 13)
    ensures var bid := "Si_gnF" + [s[j + 12]] + "scaffold" + d;
            MatchAt(s, "locus=" + bid + "[", j) && StartsWith(bid, "Si_gnF")
  {
    var c := [s[j + 12]];
    var bid := "Si_gnF" + c + "scaffold" + d;
    assert s[j + 12..j + 13] == c;
    MatchAtJoin(s, "locus=Si_gnF", c, j);
    MatchAtJoin(s, "locus=Si_gnF" + c, "scaffold" + d + "[", j);
    assert ("locus=Si_gnF" + c) + ("scaffold" + d + "[") == "locus=" + bid + "[";
    StartsWithConcat("Si_gnF", c + "scaffold" + d);
    assert "Si_gnF" + (c + "scaffold" + d) == bid;
  }

  /** `/SI2.2.0_(\d*)/` at `j`, giving the (possibly empty) digits. */
  function UniprotKeyAt(s: string, j: nat): (r: Option<string>)
    ensures r.Some? ==> AllDigits(r.value)
  {
    if MatchAt(s, "SI2", j) && AnyAt(s, j + 3) && MatchAt(s, "2", j + 4) && AnyAt(s, j + 5) && MatchAt(s, "0_", j + 6)
    then Some(s[j + 8..DigitsEnd(s, j + 8)])
    else None
  }

  /** The text a row appends: a genome-browser link, and for the fire-ant proteins a Uniprot link too. */
  function Suffix(rule: Rule, s: string, coords: Coordinates, sinv: map<string, string>): (r: Result<string>)
    ensures r.Err? <==> rule.Sinv? && (Leftmost(s, 0, LocusAt).None? || Leftmost(s, 0, UniprotKeyAt).None?)
    ensures r.Ok? ==> StartsWith(r.value, LinkOpen) && EndsWith(r.value, "]\n")
  {
    if rule.Sinv? then
      var bid :- (match Leftmost(s, 0, LocusAt) case Some(b) => Ok(b) case None => Err(NilIndexError));
      var ukey :- (match Leftmost(s, 0, UniprotKeyAt) case Some(k) => Ok(k) case None => Err(NilIndexError));
      var uid := if "SINV_" + ukey in sinv then sinv["SINV_" + ukey] else "";
      Ok(SinvLinks(bid, uid))
    else Ok(BrowserLink(Database(rule), BrowserName(rule, coords)))
  }

  /** The genome-browser database of a row's species. */
  function Database(rule: Rule): string
  {
    match rule
    case PbarCds(_) => "pbarbatus_1"
    case PbarGenomic(_) => "pbarbatus_1"
    case Sinv => "sinvicta_1"
    case SinvGenomic(_) => "sinvicta_1"
    case LhumCds(_) => "lhumile_1"
    case LhumGenomic(_) => "lhumile_1"
    case AcepCds(_) => "acephalotes_1"
    case AcepGenomic(_) => "acephalotes_1"
    case CfloCds(_) => "cfloridanus_1"
    case CfloGenomic(_) => "cfloridanus_1"
    case HsalCds(_) => "hsaltator_1"
    case HsalGenomic(_) => "hsaltator_1"
  }

  /** The rows that put the hit's coordinates into the browser link. */
  predicate CarriesCoordinates(rule: Rule)
  {
    !(rule.Sinv? || rule.AcepCds? || rule.CfloCds? || rule.HsalCds?)
  }

  /** What a row (other than the fire-ant protein row) asks the genome browser for. */
  function BrowserName(rule: Rule, coords: Coordinates): string
    requires !rule.Sinv?
  {
    match rule
    case AcepCds(_) => RemoveAll(Capture(rule), "EP_000")
    case CfloCds(d) => "CFLO" + d + "-RA"
    case HsalCds(d) => "HSAL" + d + "-RA"
    case _ => Capture(rule) + ":" + CoordinatesText(coords)
  }

  /** The line's start: the id linked to its `default_link`. */
  function LinkedId(href: string, s: string): string
  {
    "><a href='" + href + "'>" + s + "</a>"
  }

  /**
   * `construct_custom_sequence_hyperlinking_line` once `default_link` has been
   * turned into `href`: nil when no row matches, otherwise the linked id
   * followed by the row's links. The fire-ant row raises when the id lacks a
   * locus or a Uniprot key.
   */
  function CustomLine(s: string, href: string, coords: Coordinates, sinv: map<string, string>): (r: Result<Option<string>>)
    ensures r == Ok(None) <==> MatchingRule(s).None?
    ensures r.Err? ==> MatchingRule(s) == Some(Sinv)
    ensures r.Ok? && r.value.Some? ==>
              StartsWith(r.value.value, LinkedId(href, s) + LinkOpen)
              && EndsWith(r.value.value, "]\n")
  {
    match MatchingRule(s)
    case None => Ok(None)
    case Some(rule) =>
      match Suffix(rule, s, coords, sinv)
      case Err(e) => Err(e)
      case Ok(suffix) =>
      var head := LinkedId(href, s);
      PrependKeepsShape(head, suffix, LinkOpen, "]\n");
      Ok(Some(head + suffix))
  }

  lemma PrependKeepsShape(head: string, t: string, p: string, q: string)
    requires StartsWith(t, p) && EndsWith(t, q)
    ensures StartsWith(head + t, head + p) && EndsWith(head + t, q)
  {
    assert (head + t)[..|head + p|] == head + t[..|p|];
    assert (head + t)[|head + t| - |q|..] == t[|t| - |q|..];
  }

  // ---------------------------------------------------------------- what the rows link to

  /** A genomic row, and a Pbar or Lhum coding-sequence row, links the browser to `<capture>:<min>..<max>`. */
  lemma CoordinatesInLink(s: string, href: string, coords: Coordinates, sinv: map<string, string>)
    requires MatchingRule(s).Some? && CarriesCoordinates(MatchingRule(s).value)
    ensures CustomLine(s, href, coords, sinv).Ok? && CustomLine(s, href, coords, sinv).value.Some?
    ensures EndsWith(CustomLine(s, href, coords, sinv).value.value,
                     NameEnd(Capture(MatchingRule(s).value) + ":" + CoordinatesText(coords)))
  {
    var rule := MatchingRule(s).value;
    var suffix := Suffix(rule, s, coords, sinv).value;
    assert BrowserName(rule, coords) == Capture(rule) + ":" + CoordinatesText(coords);
    PrependKeepsShape(LinkedId(href, s), suffix, LinkOpen, NameEnd(BrowserName(rule, coords)));
  }

  /** The line a non-fire-ant row builds ends with a link to that row's browser name. */
  lemma LinkEndsWithName(s: string, href: string, coords: Coordinates, sinv: map<string, string>)
    requires MatchingRule(s).Some? && !MatchingRule(s).value.Sinv?
    ensures CustomLine(s, href, coords, sinv) == Ok(Some(LinkedId(href, s) + BrowserLink(Database(MatchingRule(s).value), BrowserName(MatchingRule(s).value, coords))))
    ensures EndsWith(CustomLine(s, href, coords, sinv).value.value, NameEnd(BrowserName(MatchingRule(s).value, coords)))
  {
    var rule := MatchingRule(s).value;
    var suffix := Suffix(rule, s, coords, sinv).value;
    PrependKeepsShape(LinkedId(href, s), suffix, LinkOpen, NameEnd(BrowserName(rule, coords)));
  }

  /** The Cflo coding-sequence row rebuilds the id as `CFLO<digits>-RA`. */
  lemma CfloName(s: string, href: string, coords: Coordinates, sinv: map<string, string>)
    requires MatchingRule(s).Some? && MatchingRule(s).value.CfloCds?
    ensures CustomLine(s, href, coords, sinv).Ok? && CustomLine(s, href, coords, sinv).value.Some?
    ensures EndsWith(CustomLine(s, href, coords, sinv).value.value, NameEnd("CFLO" + MatchingRule(s).value.digits + "-RA"))
  {
    var rule := MatchingRule(s).value;
    LinkEndsWithName(s, href, coords, sinv);
    assert BrowserName(rule, coords) == "CFLO" + rule.digits + "-RA";
  }

  /** The Hsal coding-sequence row rebuilds the id as `HSAL<digits>-RA`. */
  lemma HsalName(s: string, href: string, coords: Coordinates, sinv: map<string, string>)
    requires MatchingRule(s).Some? && MatchingRule(s).value.HsalCds?
    ensures CustomLine(s, href, coords, sinv).Ok? && CustomLine(s, href, coords, sinv).value.Some?
    ensures EndsWith(CustomLine(s, href, coords, sinv).value.value, NameEnd("HSAL" + MatchingRule(s).value.digits + "-RA"))
  {
    var rule := MatchingRule(s).value;
    LinkEndsWithName(s, href, coords, sinv);
    assert BrowserName(rule, coords) == "HSAL" + rule.digits + "-RA";
  }

  /** The ACEP row's browser name is its capture with `EP_000` removed. */
  lemma AcepName(s: string, href: string, coords: Coordinates, sinv: map<string, string>)
    requires MatchingRule(s).Some? && MatchingRule(s).value.AcepCds?
    ensures CustomLine(s, href, coords, sinv).Ok? && CustomLine(s, href, coords, sinv).value.Some?
    ensures StartsWith(MatchingRule(s).value.digits, "000") ==>
              EndsWith(CustomLine(s, href, coords, sinv).value.value, NameEnd("AC" + MatchingRule(s).value.digits[3..] + "-RA"))
    ensures !StartsWith(MatchingRule(s).value.digits, "000") ==>
              EndsWith(CustomLine(s, href, coords, sinv).value.value, NameEnd("ACEP_" + MatchingRule(s).value.digits + "-RA"))
  {
    var rule := MatchingRule(s).value;
    var d := rule.digits;
    assert AllDigits(d);
    LinkEndsWithName(s, href, coords, sinv);
    var name := BrowserName(rule, coords);
    assert name == RemoveAll("ACEP_" + d + "-RA", "EP_000");
    AcepBrowserName(d);
  }

  /** Removing `EP_000` from a rebuilt ACEP id drops the zeros only when the digits begin with them. */
  lemma AcepBrowserName(d: string)
    requires AllDigits(d)
    ensures StartsWith(d, "000") ==> RemoveAll("ACEP_" + d + "-RA", "EP_000") == "AC" + d[3..] + "-RA"
    ensures !StartsWith(d, "000") ==> RemoveAll("ACEP_" + d + "-RA", "EP_000") == "ACEP_" + d + "-RA"
  {
    if StartsWith(d, "000") {
      var rest := d[3..];
      assert d == "000" + rest;
      assert AllDigits(rest);
      AcepRegroup(rest);
      AcepIdDropsZeros(rest);
    } else {
      AcepIdKept(d);
    }
  }

  /**
   * The fire-ant protein row raises unless the id carries both a locus and a
   * Uniprot key; otherwise its Uniprot link names the mapped accession, or
   * nothing at all when the key is missing from the map.
   */
  lemma SinvLine(s: string, href: string, coords: Coordinates, sinv: map<string, string>)
    requires MatchingRule(s) == Some(Sinv)
    ensures CustomLine(s, href, coords, sinv).Err? <==>
              Leftmost(s, 0, LocusAt).None? || Leftmost(s, 0, UniprotKeyAt).None?
    ensures CustomLine(s, href, coords, sinv).Ok? ==>
              var key := "SINV_" + Leftmost(s, 0, UniprotKeyAt).value;
              EndsWith(CustomLine(s, href, coords, sinv).value.value, UniprotEnd(if key in sinv then sinv[key] else ""))
  {
    var r := Suffix(Sinv, s, coords, sinv);
    if r.Ok? {
      var key := "SINV_" + Leftmost(s, 0, UniprotKeyAt).value;
      PrependKeepsShape(LinkedId(href, s), r.value, LinkOpen, UniprotEnd(if key in sinv then sinv[key] else ""));
    }
  }

  // ---------------------------------------------------------------- ACEP ids

  /** Ruby's `gsub(p, '')` with a literal pattern: every non-overlapping occurrence, left to right, removed. */
  function RemoveAll(s: string, p: string): (r: string)
    requires p != []
    ensures |r| <= |s|
    decreases |s|
  {
    if |s| < |p| then s
    else if s[..|p|] == p then RemoveAll(s[|p|..], p)
    else [s[0]] + RemoveAll(s[1..], p)
  }

  /** A string whose first character does not occur in `s` is never removed from it. */
  lemma {:induction false} RemoveAbsent(s: string, p: string)
    requires p != [] && p[0] !in s
    ensures RemoveAll(s, p) == s
    decreases |s|
  {
    if |s| >= |p| {
      assert s[..|p|][0] == s[0];
      RemoveAbsent(s[1..], p);
    }
  }

  /** A character that cannot start the pattern is kept. */
  lemma RemoveKeeps(c: char, rest: string, p: string)
    requires p != [] && c != p[0]
    ensures RemoveAll([c] + rest, p) == [c] + RemoveAll(rest, p)
  {
    var s := [c] + rest;
    if |s| >= |p| { assert s[..|p|][0] == c; }
    assert s[1..] == rest;
  }

  /** An occurrence at the front is removed. */
  lemma RemoveDrops(p: string, rest: string)
    requires p != []
    ensures RemoveAll(p + rest, p) == RemoveAll(rest, p)
  {
    assert (p + rest)[..|p|] == p && (p + rest)[|p|..] == rest;
  }

  /** The ACEP id, with its first two characters split off. */
  lemma AcepIdShape(d: string)
    ensures "ACEP_" + d + "-RA" == ['A'] + (['C'] + ("EP_" + d + "-RA"))
  {
  }

  lemma AcepJoin(rest: string)
    ensures ['A'] + (['C'] + (rest + "-RA")) == "AC" + rest + "-RA"
  {
    var x := rest + "-RA";
    assert forall i :: 0 <= i < |x| ==> (['A'] + (['C'] + x))[i + 2] == x[i];
  }

  lemma AcepRegroup(rest: string)
    ensures "ACEP_" + ("000" + rest) + "-RA" == "ACEP_000" + rest + "-RA"
  {
    var a, b := "ACEP_" + ("000" + rest) + "-RA", "ACEP_000" + rest + "-RA";
    assert |a| == |b|;
    forall i | 0 <= i < |a| ensures a[i] == b[i] {
      if i < 8 { } else if i < 8 + |rest| { assert a[i] == rest[i - 8] == b[i]; }
    }
  }

  /** No `E` follows the digits of an ACEP id. */
  lemma NoEAfterDigits(d: string)
    requires AllDigits(d)
    ensures 'E' !in d + "-RA"
  {
    var x := d + "-RA";
    forall i | 0 <= i < |x| ensures x[i] != 'E' {
      if i < |d| { assert x[i] == d[i]; }
    }
  }

  /** The ACEP row's id with a digit run that starts `000`: `ACEP_000<rest>-RA` becomes `AC<rest>-RA`. */
  lemma AcepIdDropsZeros(rest: string)
    requires AllDigits(rest)
    ensures RemoveAll("ACEP_000" + rest + "-RA", "EP_000") == "AC" + rest + "-RA"
  {
    var p := "EP_000";
    var x := rest + "-RA";
    var t := p + x;
    assert "ACEP_000" + rest + "-RA" == ['A'] + (['C'] + t);
    RemoveKeeps('A', ['C'] + t, p);
    RemoveKeeps('C', t, p);
    RemoveDrops(p, x);
    NoEAfterDigits(rest);
    RemoveAbsent(x, p);
    AcepJoin(rest);
  }

  /** `EP_` followed by digits that do not start `000` is not the pattern `EP_000`. */
  lemma EpKept(d: string)
    requires AllDigits(d) && !StartsWith(d, "000")
    ensures var t := "EP_" + d + "-RA"; |t| >= 6 && t[..6] != "EP_000"
  {
    var t := "EP_" + d + "-RA";
    if |d| >= 3 {
      assert t[..6][3..] == d[..3];
    } else {
      assert t[..6][3 + |d|] == '-';
    }
  }

  /** The ACEP row's id with any other digit run is kept as it is. */
  lemma AcepIdKept(d: string)
    requires AllDigits(d) && !StartsWith(d, "000")
    ensures RemoveAll("ACEP_" + d + "-RA", "EP_000") == "ACEP_" + d + "-RA"
  {
    var p := "EP_000";
    var t := "EP_" + d + "-RA";
    AcepIdShape(d);
    RemoveKeeps('A', ['C'] + t, p);
    RemoveKeeps('C', t, p);
    EpKept(d);
    var x := t[1..];
    assert x == "P_" + (d + "-RA");
    NoEAfterDigits(d);
    RemoveAbsent(x, p);
    RemoveSkips(t, p);
    HeadAndTail(t);
    assert RemoveAll(t, p) == t;
  }

  /** A string that does not start with `p` keeps its first character. */
  lemma RemoveSkips(s: string, p: string)
    requires p != [] && |s| >= |p| && s[..|p|] != p
    ensures RemoveAll(s, p) == [s[0]] + RemoveAll(s[1..], p)
  {
  }
}
