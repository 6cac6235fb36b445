/**
 * The links shown beside each hit of the report: the sequence viewer and the
 * FASTA download, the two genome browsers for the ant and bee species they
 * carry, and the NCBI and UniProt pages an id points to.
 */
module Links {
  import opened Wrappers
  import opened Text
  import opened Customisation

  // ---------------------------------------------------------------- the hit a link is for

  datatype Database = Database(id: string, name: string, title: string, dbtype: string)

  /** What the link generators read from the hit they are mixed into. */
  datatype HitContext = HitContext(
    id: string,
    accession: string,
    title: string,
    /** The databases searched. */
    querydb: seq<Database>,
    /** The databases the hit was found in. */
    whichdb: seq<Database>,
    /** `sstart` and `send` of each HSP. */
    hsps: seq<(int, int)>)

  datatype Link = Link(order: nat, title: string, url: string, cssClass: Option<string>, icon: string)

  /** What Ruby raises on a method of `nil`, such as the first element of an empty list. */
  function NilMethodError(name: string): string
  {
    "undefined method `" + name + "' for nil:NilClass"
  }

  const NilToInteger: string := "can't convert nil into Integer"

  // ---------------------------------------------------------------- Ensembl and Hymenopterabase

  const EnsemblSpecies: seq<string> := ["Apis_mellifera", "Atta_cephalotes", "Solenopsis_invicta", "Nasonia_vitripennis"]

  /** The assembly of each species the Hymenopterabase browser holds. */
  const Assemblies: map<string, string> := map[
    "Apis_mellifera" := "Amel_4.5",
    "Lasioglossum_albipes" := "Lalb_v2",
    "Bombus_impatiens" := "Bimp_2.0_NCBI",
    "Bombus_terrestris" := "Bter_1.0",
    "Nasonia_vitripennis" := "Nvit_2.0",
    "Acromyrmex_echinatior" := "Aech_2.0",
    "Atta_cephalotes" := "Acep_1.0",
    "Camponotus_floridanus" := "Cflo_3.3",
    "Cardiocondyle_obscurior" := "Cobs_1.4",
    "Harpeganthos_saltator" := "Hsal_3.3",
    "Linepithema_humile" := "Lhum_1.0",
    "Pogonymex_barbatus" := "Pbar_1.0",
    "Solenopsis_invicta" := "Sinv_1."]

  /**
   * A URL format `head%s:%d<sep>%d` filled in with `mid` (the scaffold and its
   * colon) and the two coordinates; `nil` for a `%d` raises.
   */
  function Located(head: string, mid: string, coords: Coordinates, sep: string): (r: Result<string>)
    ensures r.Err? <==> coords.None?
    ensures r.Ok? ==> r.value == head + mid + IntToString(coords.value.0) + sep + IntToString(coords.value.1)
  {
    match coords
    case None => Err(NilToInteger)
    case Some((start, stop)) => Ok(head + mid + IntToString(start) + sep + IntToString(stop))
  }

  /**
   * The coordinates read back from a filled-in URL: `to_i` of the text after
   * the scaffold gives the start, since the separator does not continue a
   * number, and `to_i` of the text after the separator gives the stop.
   */
  lemma LocatedReadsBack(head: string, mid: string, start: int, stop: int, sep: string)
    requires sep != [] && !IsDigit(sep[0]) && sep[0] != '_'
    ensures var r := Located(head, mid, Some((start, stop)), sep).value;
            var k := |head| + |mid|;
            k <= |r| && ToI(r[k..]) == start
            && k + |IntToString(start)| + |sep| <= |r| && ToI(r[k + |IntToString(start)| + |sep|..]) == stop
  {
    var a, b := IntToString(start), IntToString(stop);
    var r := Located(head, mid, Some((start, stop)), sep).value;
    assert r == (head + mid) + (a + (sep + b));
    var k := |head| + |mid|;
    assert r[k..] == a + (sep + b);
    ToIOfIntToStringThen(start, sep + b);
    assert r[k + |a| + |sep|..] == b;
    ToIOfIntToString(stop);
  }

  /** `Ensembl.url`: a link only for the four listed species, and only with a scaffold. */
  function EnsemblUrl(species: Option<string>, scaffold: Option<string>, coords: Coordinates): (r: Result<Option<string>>)
    ensures r == Ok(None) <==> !(species.Some? && scaffold.Some? && species.value in EnsemblSpecies)
    ensures r.Err? <==> species.Some? && scaffold.Some? && species.value in EnsemblSpecies && coords.None?
    ensures r.Ok? && r.value.Some? ==>
              coords.Some? && r.value.value == ("http://metazoa.ensembl.org/" + species.value + "/Location/View?r=")
                                               + (scaffold.value + ":") + IntToString(coords.value.0) + "-" + IntToString(coords.value.1)
  {
    if species.None? || scaffold.None? then Ok(None)
    else if species.value !in EnsemblSpecies then Ok(None)
    else
      var url :- Located("http://metazoa.ensembl.org/" + species.value + "/Location/View?r=", scaffold.value + ":", coords, "-");
      Ok(Some(url))
  }

  /** `Hymenopterabase.url`: a link to the species' assembly, for the species the browser holds. */
  function HymenopterabaseUrl(species: Option<string>, scaffold: Option<string>, coords: Coordinates): (r: Result<Option<string>>)
    ensures r == Ok(None) <==> !(species.Some? && scaffold.Some? && species.value in Assemblies)
    ensures r.Err? <==> species.Some? && scaffold.Some? && species.value in Assemblies && coords.None?
    ensures r.Ok? && r.value.Some? ==>
              coords.Some? && r.value.value == ("http://hymenopteragenome.org:8080/" + Assemblies[species.value] + "/jbrowse/?loc=")
                                               + (scaffold.value + ":") + IntToString(coords.value.0) + ".." + IntToString(coords.value.1)
  {
    if species.None? || scaffold.None? then Ok(None)
    else if species.value !in Assemblies then Ok(None)
    else
      var url :- Located("http://hymenopteragenome.org:8080/" + Assemblies[species.value] + "/jbrowse/?loc=", scaffold.value + ":", coords, "..");
      Ok(Some(url))
  }

  /** Every species Ensembl shows is one Hymenopterabase shows too. */
  lemma EnsemblSpeciesInHymenopterabase(species: string)
    requires species in EnsemblSpecies
    ensures species in Assemblies
  {
  }

  // ---------------------------------------------------------------- the scaffold in a title

  predicate Separator(c: char)
  {
    IsSpace(c) || c == '\\'
  }

  /** End of the run of `[^\s\\]` that starts at `k`. */
  function RunEnd(s: string, k: nat): (e: nat)
    requires k <= |s|
    ensures k <= e <= |s| && (e < |s| ==> Separator(s[e]))
    ensures forall i :: k <= i < e ==> !Separator(s[i])
    decreases |s| - k
  {
    if k == |s| || Separator(s[k]) then k else RunEnd(s, k + 1)
  }

  /** The last lower-case letter in `[lo, hi)` that a digit follows, still inside `[lo, hi)`. */
  function LastLetterDigit(s: string, lo: nat, hi: nat): (r: Option<nat>)
    requires hi <= |s|
    ensures r.Some? ==> lo <= r.value && r.value + 1 < hi && IsLower(s[r.value]) && IsDigit(s[r.value + 1])
    ensures r.Some? ==> forall m :: r.value < m && m + 1 < hi ==> !(IsLower(s[m]) && IsDigit(s[m + 1]))
    ensures r.None? ==> forall m :: lo <= m && m + 1 < hi ==> !(IsLower(s[m]) && IsDigit(s[m + 1]))
    decreases hi
  {
    if hi < lo + 2 then None
    else if IsLower(s[hi - 2]) && IsDigit(s[hi - 1]) then Some(hi - 2)
    else LastLetterDigit(s, lo, hi - 1)
  }

  /** A scaffold name: no whitespace or backslash, ending in a lower-case letter and 1 to 100 digits. */
  predicate IsScaffold(t: string)
  {
    (forall i :: 0 <= i < |t| ==> !Separator(t[i]))
    && exists k :: 1 <= k <= 100 && EndsInLetterDigits(t, k)
  }

  /** `t` ends in a lower-case letter and then `k` digits. */
  predicate EndsInLetterDigits(t: string, k: nat)
  {
    k < |t| && IsLower(t[|t| - k - 1]) && AllDigits(t[|t| - k..])
  }

  /**
   * `/[^\s\\]*[a-z][0-9]{1,100}/` tried at `j`: the greedy star gives back
   * characters until a letter and a digit follow, so the letter is the last
   * one of the run that a digit follows.
   */
  function ScaffoldAt(s: string, j: nat): (r: Option<string>)
    ensures r.Some? ==> MatchAt(s, r.value, j) && IsScaffold(r.value)
    ensures r.None? && j <= |s| ==> forall m :: j <= m && m + 1 < RunEnd(s, j) ==> !(IsLower(s[m]) && IsDigit(s[m + 1]))
  {
    if j > |s| then None
    else
      var e := RunEnd(s, j);
      match LastLetterDigit(s, j, e)
      case None => None
      case Some(m) =>
        // The digits cannot run past `e`, where a separator or the end stands.
        var d := Min(DigitsEnd(s, m + 1), e);
        var stop := Min(d, m + 101);
        DigitsWithin(s, m + 1, stop, DigitsEnd(s, m + 1));
        ScaffoldShape(s, j, m, stop, e);
        var name := s[j..stop];
        assert MatchAt(s, name, j);
        Some(name)
  }

  lemma DigitsWithin(s: string, a: nat, b: nat, c: nat)
    requires a <= b <= c <= |s| && AllDigits(s[a..c])
    ensures AllDigits(s[a..b])
  {
    assert forall i :: 0 <= i < b - a ==> s[a..b][i] == s[a..c][i];
  }

  function Min(a: nat, b: nat): nat
  {
    if a < b then a else b
  }

  lemma ScaffoldShape(s: string, j: nat, m: nat, stop: nat, e: nat)
    requires j <= m && m + 1 < stop <= e <= |s| && stop <= m + 101 && IsLower(s[m])
    requires forall i :: j <= i < e ==> !Separator(s[i])
    requires AllDigits(s[m + 1..stop])
    ensures IsScaffold(s[j..stop])
  {
    var t := s[j..stop];
    var k := stop - m - 1;
    assert t[|t| - k..] == s[m + 1..stop];
    assert t[|t| - k - 1] == s[m];
    assert EndsInLetterDigits(t, k);
  }

  /** The scaffold a title names: the leftmost match. */
  function Scaffold(title: string): Option<string>
  {
    Leftmost(title, 0, ScaffoldAt)
  }

  // ---------------------------------------------------------------- species and coordinates

  /** `species`: the directory the first hit database lies in, the second-last `/` part of its name. */
  function Species(whichdb: seq<Database>): (r: Result<Option<string>>)
    ensures r.Err? <==> whichdb == []
    ensures r.Ok? ==> (r.value.Some? <==> |Split(whichdb[0].name, '/')| >= 2)
    ensures r.Ok? && r.value.Some? ==> '/' !in r.value.value
  {
    if whichdb == [] then Err(NilMethodError("name"))
    else
      var parts := Split(whichdb[0].name, '/');
      if |parts| >= 2 then
        assert parts[|parts| - 2] == Fields(whichdb[0].name, '/')[|parts| - 2];
        Ok(Some(parts[|parts| - 2]))
      else Ok(None)
  }

  /** `coords`: the smallest HSP start and the largest HSP end, `nil` for a hit without HSPs. */
  function HitCoords(hsps: seq<(int, int)>): (r: Coordinates)
    ensures r.None? <==> hsps == []
    ensures r.Some? ==> forall i :: 0 <= i < |hsps| ==> r.value.0 <= hsps[i].0 && hsps[i].1 <= r.value.1
    ensures r.Some? ==> (exists i :: 0 <= i < |hsps| && r.value.0 == hsps[i].0)
                        && (exists i :: 0 <= i < |hsps| && r.value.1 == hsps[i].1)
  {
    if hsps == [] then None
    else match HitCoords(hsps[..|hsps| - 1])
      case None => Some(hsps[|hsps| - 1])
      case Some((lo, hi)) =>
        var last := hsps[|hsps| - 1];
        Some((if last.0 < lo then last.0 else lo, if last.1 > hi then last.1 else hi))
  }

  // ---------------------------------------------------------------- the generators

  /** `sequence_viewer`: the page showing the hit's sequence from the databases searched. */
  function SequenceViewer(h: HitContext, encode: string -> string): (r: Link)
    ensures r.order == 0 && StartsWith(r.url, "get_sequence/?sequence_ids=" + encode(h.accession))
    ensures r.url == "get_sequence/?sequence_ids=" + encode(h.accession) + "&database_ids="
                     + encode(Join(seq(|h.querydb|, i requires 0 <= i < |h.querydb| => h.querydb[i].id), " "))
  {
    var ids := seq(|h.querydb|, i requires 0 <= i < |h.querydb| => h.querydb[i].id);
    var head := "get_sequence/?sequence_ids=" + encode(h.accession);
    var url := head + "&database_ids=" + encode(Join(ids, " "));
    assert url[..|head|] == head;
    Link(0, "Sequence", url, Some("view-sequence"), "fa-eye")
  }

  /** `fasta_download`: the same page, as a FASTA file. */
  function FastaDownload(h: HitContext, encode: string -> string): (r: Link)
  {
    var ids := seq(|h.querydb|, i requires 0 <= i < |h.querydb| => h.querydb[i].id);
    var url := "get_sequence/?sequence_ids=" + encode(h.accession) + "&database_ids=" + encode(Join(ids, " ")) + "&download=fasta";
    Link(1, "FASTA", url, Some("download"), "fa-download")
  }

  /** The download is the viewer's URL with `&download=fasta` added, and comes right after it. */
  lemma DownloadFollowsViewer(h: HitContext, encode: string -> string)
    ensures FastaDownload(h, encode).url == SequenceViewer(h, encode).url + "&download=fasta"
    ensures FastaDownload(h, encode).order == SequenceViewer(h, encode).order + 1
  {
  }

  /** The hit's title names a scaffold and its database lies in the directory of one of `species`. */
  predicate Shown(h: HitContext, species: set<string>)
  {
    Scaffold(h.title).Some? && h.whichdb != [] && Species(h.whichdb).value.Some? && Species(h.whichdb).value.value in species
  }

  /** `hymenoptera_base`: a link to the hit's scaffold in the species' genome browser. */
  function HymenopteraBase(h: HitContext): (r: Result<Option<Link>>)
    ensures r.Ok? && r.value.Some? ==> r.value.value.order == 2 && r.value.value.title == "Hymenopterabase"
    ensures r.Ok? && r.value.Some? ==>
              Species(h.whichdb).Ok?
              && HymenopterabaseUrl(Species(h.whichdb).value, Scaffold(h.title), HitCoords(h.hsps)) == Ok(Some(r.value.value.url))
    ensures r.Err? <==> h.whichdb == [] || (Shown(h, Assemblies.Keys) && h.hsps == [])
    ensures r.Ok? ==> (r.value.Some? <==> Shown(h, Assemblies.Keys))
  {
    var scaffold := Scaffold(h.title);
    var species :- Species(h.whichdb);
    var url :- HymenopterabaseUrl(species, scaffold, HitCoords(h.hsps));
    match url
    case None => Ok(None)
    case Some(u) => Ok(Some(Link(2, "Hymenopterabase", u, None, "fa-external-link")))
  }

  /** `ensembl`: a link to the hit's scaffold in Ensembl Metazoa. */
  function EnsemblLink(h: HitContext): (r: Result<Option<Link>>)
    ensures r.Ok? && r.value.Some? ==> r.value.value.order == 2 && r.value.value.title == "Ensembl"
    ensures r.Ok? && r.value.Some? ==>
              Species(h.whichdb).Ok?
              && EnsemblUrl(Species(h.whichdb).value, Scaffold(h.title), HitCoords(h.hsps)) == Ok(Some(r.value.value.url))
    ensures r.Err? <==> h.whichdb == [] || (Shown(h, set x | x in EnsemblSpecies) && h.hsps == [])
    ensures r.Ok? ==> (r.value.Some? <==> Shown(h, set x | x in EnsemblSpecies))
  {
    var scaffold := Scaffold(h.title);
    var species :- Species(h.whichdb);
    var url :- EnsemblUrl(species, scaffold, HitCoords(h.hsps));
    match url
    case None => Ok(None)
    case Some(u) => Ok(Some(Link(2, "Ensembl", u, None, "fa-external-link")))
  }

  // ---------------------------------------------------------------- ids

  /** `/gi\|(\d+)\|/` at `j`: the digits run up to the next `|`. */
  function NcbiIdAt(s: string, j: nat): (r: Option<string>)
    ensures r.Some? ==> r.value != [] && AllDigits(r.value) && MatchAt(s, "gi|" + r.value + "|", j)
    ensures r.Some? <==> MatchAt(s, "gi|", j) && DigitsEnd(s, j + 3) > j + 3 && MatchAt(s, "|", DigitsEnd(s, j + 3))
  {
    match DigitsAfter(s, j, "gi|", "|")
    case None => None
    case Some(d) => if d == [] then None else Some(d)
  }

  /** End of the run of word characters that starts at `k`. */
  function WordEnd(s: string, k: nat): (e: nat)
    requires k <= |s|
    ensures k <= e <= |s| && (e < |s| ==> !IsWordChar(s[e]))
    ensures forall i :: k <= i < e ==> IsWordChar(s[i])
    decreases |s| - k
  {
    if k < |s| && IsWordChar(s[k]) then WordEnd(s, k + 1) else k
  }

  /** `/sp\|(\w+)\|/` at `j`: the word runs up to the next `|`. */
  function UniprotIdAt(s: string, j: nat): (r: Option<string>)
    ensures r.Some? ==> r.value != [] && (forall i :: 0 <= i < |r.value| ==> IsWordChar(r.value[i]))
                        && MatchAt(s, "sp|" + r.value + "|", j)
    ensures r.Some? <==> MatchAt(s, "sp|", j) && WordEnd(s, j + 3) > j + 3 && MatchAt(s, "|", WordEnd(s, j + 3))
  {
    if MatchAt(s, "sp|", j) && WordEnd(s, j + 3) > j + 3 && MatchAt(s, "|", WordEnd(s, j + 3)) then
      var e := WordEnd(s, j + 3);
      var w := s[j + 3..e];
      assert s[j..j + |"sp|" + w + "|"|] == s[j..j + 3] + w + s[e..e + 1];
      Some(w)
    else None
  }

  /** `ncbi`: the NCBI page of a `gi|` number, in the section for the first searched database's type. */
  function Ncbi(h: HitContext, encode: string -> string): (r: Result<Option<Link>>)
    ensures r.Ok? && r.value.None? <==> Leftmost(h.id, 0, NcbiIdAt).None?
    ensures r.Err? <==> Leftmost(h.id, 0, NcbiIdAt).Some? && h.querydb == []
    ensures r.Ok? && r.value.Some? ==>
              r.value.value.order == 3
              && r.value.value.url == "http://www.ncbi.nlm.nih.gov/" + h.querydb[0].dbtype + "/" + encode(Leftmost(h.id, 0, NcbiIdAt).value)
  {
    match Leftmost(h.id, 0, NcbiIdAt)
    case None => Ok(None)
    case Some(gi) =>
      if h.querydb == [] then Err(NilMethodError("type"))
      else Ok(Some(Link(3, "NCBI", "http://www.ncbi.nlm.nih.gov/" + h.querydb[0].dbtype + "/" + encode(gi), None, "fa-external-link")))
  }

  const UniprotPage: string := "http://www.uniprot.org/uniprot/"

  /** `uniprot`: the UniProt page of an `sp|` accession. */
  function Uniprot(h: HitContext, encode: string -> string): (r: Option<Link>)
    ensures r.None? <==> Leftmost(h.id, 0, UniprotIdAt).None?
    ensures r.Some? ==> r.value.order == 3 && r.value.url == UniprotPage + encode(Leftmost(h.id, 0, UniprotIdAt).value)
  {
    match Leftmost(h.id, 0, UniprotIdAt)
    case None => None
    case Some(acc) => Some(Link(3, "UniProt", UniprotPage + encode(acc), None, "fa-external-link"))
  }

  /** `uniprot_sinv`: the UniProt page the fire-ant table gives for an `SI2.2.0_` protein, when it has one. */
  function UniprotSinv(h: HitContext, sinv: map<string, string>): (r: Option<Link>)
    ensures r.Some? <==> Leftmost(h.id, 0, UniprotKeyAt).Some? && "SINV_" + Leftmost(h.id, 0, UniprotKeyAt).value in sinv
    ensures r.Some? ==> r.value.order == 3 && r.value.url == UniprotPage + sinv["SINV_" + Leftmost(h.id, 0, UniprotKeyAt).value]
  {
    match Leftmost(h.id, 0, UniprotKeyAt)
    case None => None
    case Some(d) =>
      var key := "SINV_" + d;
      if key in sinv then Some(Link(3, "UniProt", UniprotPage + sinv[key], None, "fa-external-link")) else None
  }
}
