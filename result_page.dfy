/**
 * The HTML results page built from BLAST's own HTML output, line by line.
 *
 * `Step` is one round of the formatter's loop over the output lines and `Run`
 * the loop up to a line; the `App` class carries the formatter as the
 * application writes it, with its one field, the list of retrievable ids, and
 * is proved to follow `Run`. The lemmas describe what the loop does to each
 * kind of line: the banner is dropped, the reference moves to the end, the
 * database summary is captured once, queries are wrapped in `<div>`s, and hit
 * lines get their links.
 */
module ResultPage {
  import opened Wrappers
  import opened Text
  import opened Customisation

  /** What the formatter calls but does not define. */
  datatype Hooks = Hooks(
    /** Sinatra's `url(path, absolute)`; nil stands for the application's root. */
    url: (Option<string>, bool) -> string,
    /** The Uniprot accessions of the fire-ant proteins, loaded from YAML. */
    sinv: map<string, string>,
    /** The hit link of `sequencehelpers.rb`, for an id, the databases and the hit coordinates. */
    sequenceLink: (string, seq<string>, Coordinates) -> Option<string>)

  // ---------------------------------------------------------------- default_link

  /** The id `default_link` retrieves: after `lcl|`, up to the first whitespace. */
  function LclId(sid: string): (r: Option<string>)
    ensures r.Some? <==> StartsWith(sid, "lcl|")
    ensures r.Some? ==> StartsWith(sid, "lcl|" + r.value) && forall j :: 0 <= j < |r.value| ==> !IsSpace(r.value[j])
    ensures r.Some? ==> 4 + |r.value| == |sid| || IsSpace(sid[4 + |r.value|])
  {
    if StartsWith(sid, "lcl|") then
      var n := TokenLength(sid[4..]);
      var id := sid[4..4 + n];
      assert sid[..|"lcl|" + id|] == sid[..4] + id;
      assert forall j :: 0 <= j < |id| ==> id[j] == sid[4..][j];
      assert 4 + n < |sid| ==> sid[4 + n] == sid[4..][n];
      Some(id)
    else None
  }

  /** What `default_link` returns: a link to the FASTA of an `lcl|` id in all the searched databases. */
  function DefaultLinkOf(sid: string, databases: seq<string>): Option<string>
  {
    match LclId(sid)
    case None => None
    case Some(id) => Some("/get_sequence/?id=" + id + "&db=" + Join(databases, " "))
  }

  /** What `default_link` appends to the retrievable ids. */
  function Retrieved(sid: string): seq<string>
  {
    match LclId(sid)
    case None => []
    case Some(id) => [id]
  }

  // ---------------------------------------------------------------- hit lines

  /** What Ruby raises when `result[line_number, nil]` is asked for. */
  const NilLengthError: string := "no implicit conversion from nil to integer"

  /** `/^>(.+)/` and its capture: the id runs from after `>` to the end of the first line. */
  function SequenceIdOf(line: string): (r: Result<string>)
    ensures r.Ok? <==> |line| >= 2 && line[0] == '>' && line[1] != '\n'
    ensures r.Ok? ==> r.value != [] && '\n' !in r.value && StartsWith(line, ">" + r.value)
    ensures r.Ok? ==> |r.value| + 1 == |line| || line[|r.value| + 1] == '\n'
  {
    if |line| >= 2 && line[0] == '>' && line[1] != '\n' then
      var e := LineEnd(line, 1);
      var id := line[1..e];
      assert line[..|">" + id|] == ">" + id;
      assert forall j :: 0 <= j < |id| ==> id[j] == line[1 + j];
      Ok(id)
    else Err(NilIndexError)
  }

  /**
   * `/^>(.+)(<a.*><\/a>)(.*)/` matches the first line: after `>` and at least
   * one character, an `<a` with a `></a>` after it on the same line.
   */
  predicate AnchorAfterIdMatches(line: string)
  {
    StartsWith(line, ">")
    && exists p: nat, q: nat :: 2 <= p && p + 2 <= q && q + 5 <= LineEnd(line, 0)
                               && MatchAt(line, "<a", p) && MatchAt(line, "></a>", q)
  }

  /**
   * `r` is `line` with the anchor from `<a` at `p` to `></a>` at `q` moved to
   * the end of the first line. The backtracking of the greedy groups picks the
   * last `></a>` of the line and the last `<a` before it.
   */
  predicate AnchorMovedAfterId(line: string, r: string, p: nat, q: nat)
  {
    var e := LineEnd(line, 0);
    2 <= p && p + 2 <= q && q + 5 <= e && MatchAt(line, "<a", p) && MatchAt(line, "></a>", q)
    && (forall j: nat :: q < j && j + 5 <= e ==> !MatchAt(line, "></a>", j))
    && (forall j: nat :: p < j && j + 2 <= q ==> !MatchAt(line, "<a", j))
    && |r| == |line|
    && r[..e] == ">" + line[1..p] + line[q + 5..e] + line[p..q + 5]
    && r[e..] == line[e..]
  }

  /**
   * `line.gsub!(/^>(.+)(<a.*><\/a>)(.*)/, '>\1\3\2')`: the last anchor of the
   * first line, from the last `<a` that still has a `></a>` after it up to
   * the last `></a>`, moves to the end of that line.
   */
  function MoveAnchorAfterId(line: string): (r: string)
    ensures |r| == |line| && multiset(r) == multiset(line)
    ensures StartsWith(line, ">") ==> StartsWith(r, ">")
    ensures AnchorAfterIdMatches(line) ==> exists p: nat, q: nat :: AnchorMovedAfterId(line, r, p, q)
    ensures !AnchorAfterIdMatches(line) ==> r == line
  {
    if !StartsWith(line, ">") then line
    else
      var e := LineEnd(line, 0);
      match LastMatchIn(line, "></a>", 0, e)
      case None => line
      case Some(q) =>
        match LastMatchIn(line, "<a", 2, q)
        case None => line
        case Some(p) =>
          AnchorAfterIdMoved(line, p, q, e);
          var r := ">" + line[1..p] + line[q + 5..e] + line[p..q + 5] + line[e..];
          assert r[..e] == ">" + line[1..p] + line[q + 5..e] + line[p..q + 5];
          assert r[e..] == line[e..];
          assert AnchorMovedAfterId(line, r, p, q);
          r
  }

  /** Swapping the anchor with the text after it only reorders the line. */
  lemma AnchorAfterIdMoved(line: string, p: nat, q: nat, e: nat)
    requires StartsWith(line, ">") && 1 <= p <= q + 5 <= e <= |line|
    ensures var r := ">" + line[1..p] + line[q + 5..e] + line[p..q + 5] + line[e..];
            |r| == |line| && multiset(r) == multiset(line) && StartsWith(r, ">")
  {
    var a, b, c, d, f := line[..1], line[1..p], line[p..q + 5], line[q + 5..e], line[e..];
    assert line == a + b + c + d + f;
    var r := ">" + b + d + c + f;
    assert r[..1] == ">";
  }

  /** `/^>(<a.*><\/a>)(.*)/` matches the first line: `><a` and a `></a>` after it on the same line. */
  predicate LeadingAnchorMatches(line: string)
  {
    StartsWith(line, "><a")
    && exists q: nat :: 3 <= q && q + 5 <= LineEnd(line, 0) && MatchAt(line, "></a>", q)
  }

  /** `r` is `line` with the anchor from `<a` at 1 to the last `></a>` of the first line, at `q`, moved to the end of that line. */
  predicate LeadingAnchorMovedTo(line: string, r: string, q: nat)
  {
    var e := LineEnd(line, 0);
    3 <= q && q + 5 <= e && MatchAt(line, "></a>", q)
    && (forall j: nat :: q < j && j + 5 <= e ==> !MatchAt(line, "></a>", j))
    && |r| == |line|
    && r[..e] == ">" + line[q + 5..e] + line[1..q + 5]
    && r[e..] == line[e..]
  }

  /** `line.gsub!(/^>(<a.*><\/a>)(.*)/, '>\2\1')`: an anchor right after `>` moves to the end of the first line. */
  function MoveLeadingAnchor(line: string): (r: string)
    ensures |r| == |line| && multiset(r) == multiset(line)
    ensures StartsWith(line, ">") ==> StartsWith(r, ">")
    ensures LeadingAnchorMatches(line) ==> exists q: nat :: LeadingAnchorMovedTo(line, r, q)
    ensures !LeadingAnchorMatches(line) ==> r == line
  {
    if !StartsWith(line, "><a") then line
    else
      var e := LineEnd(line, 0);
      match LastMatchIn(line, "></a>", 3, e)
      case None => line
      case Some(q) =>
        LeadingAnchorMoved(line, q, e);
        var r := ">" + line[q + 5..e] + line[1..q + 5] + line[e..];
        assert r[..e] == ">" + line[q + 5..e] + line[1..q + 5];
        assert r[e..] == line[e..];
        assert LeadingAnchorMovedTo(line, r, q);
        r
  }

  /** Moving the leading anchor after the rest of the first line only reorders the line. */
  lemma LeadingAnchorMoved(line: string, q: nat, e: nat)
    requires StartsWith(line, ">") && 1 <= q + 5 <= e <= |line|
    ensures var r := ">" + line[q + 5..e] + line[1..q + 5] + line[e..];
            |r| == |line| && multiset(r) == multiset(line) && StartsWith(r, ">")
  {
    var a, b, c, f := line[..1], line[1..q + 5], line[q + 5..e], line[e..];
    assert line == a + b + c + f;
    var r := ">" + c + b + f;
    assert r[..1] == ">";
  }

  /** `/>lcl|Lambda/`: the line that ends a hit's alignments. */
  predicate EndsHit(l: string)
  {
    Contains(l, ">lcl") || Contains(l, "Lambda")
  }

  /** `index { |l| l =~ />lcl|Lambda/ }`. */
  function HitLength(rest: seq<string>): (r: Option<nat>)
    ensures r.Some? ==> r.value < |rest| && EndsHit(rest[r.value])
    ensures r.Some? ==> forall i :: 0 <= i < r.value ==> !EndsHit(rest[i])
    ensures r.None? ==> forall i :: 0 <= i < |rest| ==> !EndsHit(rest[i])
  {
    if |rest| == 0 then None
    else if EndsHit(rest[0]) then Some(0)
    else match HitLength(rest[1..])
      case None => None
      case Some(k) => Some(k + 1)
  }

  /** `[l[1], l[-1]].map(&:to_i)` of a line's whitespace-separated fields, nil reading as 0. */
  function SbjctPair(l: string): seq<int>
  {
    var fields := SplitWs(l);
    [if |fields| > 1 then ToI(fields[1]) else 0, if |fields| > 0 then ToI(fields[|fields| - 1]) else 0]
  }

  /** `grep(/Sbjct/).map(&:split).map { |l| [l[1], l[-1]] }.flatten.map(&:to_i)`. */
  function SbjctValues(window: seq<string>): (r: seq<int>)
  {
    if |window| == 0 then []
    else
      var init := SbjctValues(window[..|window| - 1]);
      var l := window[|window| - 1];
      if Contains(l, "Sbjct") then init + SbjctPair(l) else init
  }

  /** Ruby's `minmax` on integers: `[nil, nil]` for an empty list. */
  function MinMax(xs: seq<int>): (r: Coordinates)
    ensures r.None? <==> xs == []
    ensures r.Some? ==> forall i :: 0 <= i < |xs| ==> r.value.0 <= xs[i] <= r.value.1
    ensures r.Some? ==> r.value.0 in xs && r.value.1 in xs
  {
    if |xs| == 0 then None
    else match MinMax(xs[..|xs| - 1])
      case None => Some((xs[0], xs[0]))
      case Some((lo, hi)) =>
        var x := xs[|xs| - 1];
        assert forall i :: 0 <= i < |xs| - 1 ==> xs[i] == xs[..|xs| - 1][i];
        assert lo in xs[..|xs| - 1] && hi in xs[..|xs| - 1];
        Some((if x < lo then x else lo, if x > hi then x else hi))
  }

  /**
   * `hit_coordinates`: the span of the subject coordinates up to the next hit;
   * Ruby raises when no later line ends the hit.
   */
  function HitCoordinates(rest: seq<string>): (r: Result<Coordinates>)
    ensures r.Err? <==> forall i :: 0 <= i < |rest| ==> !EndsHit(rest[i])
    ensures r.Ok? ==> exists k :: 0 <= k < |rest| && HitLength(rest) == Some(k) && r.value == MinMax(SbjctValues(rest[..k]))
  {
    match HitLength(rest)
    case None => Err(NilLengthError)
    case Some(k) => Ok(MinMax(SbjctValues(rest[..k])))
  }

  /**
   * `construct_sequence_hyperlink_line`'s last step: a whole custom line wins;
   * otherwise the hit's link, if it has one, replaces the line.
   */
  function Resolve(line: string, sid: string, custom: Option<string>, link: Option<string>, url: (Option<string>, bool) -> string): string
  {
    match custom
    case Some(l) => l
    case None =>
      match link
      case None => line
      case Some(_) => "><a href='" + url(link, false) + "' target='_blank'>" + sid + "</a> \n"
  }

  /** `construct_sequence_hyperlink_line` for a hit line, with the coordinates of its hit. */
  function HyperlinkLineOf(line: string, databases: seq<string>, coords: Coordinates, hooks: Hooks): Result<string>
  {
    var sid :- SequenceIdOf(line);
    var custom :- CustomLine(sid, hooks.url(DefaultLinkOf(sid, databases), true), coords, hooks.sinv);
    Ok(Resolve(line, sid, custom, hooks.sequenceLink(sid, databases, coords), hooks.url))
  }

  /**
   * The resolver's precedence: the custom table's line when a row matches,
   * else the hit's own link when it has one, else the line unchanged. It
   * raises only when the line has no id or the fire-ant row cannot read one.
   */
  lemma HyperlinkPrecedence(line: string, databases: seq<string>, coords: Coordinates, hooks: Hooks)
    requires SequenceIdOf(line).Ok?
    ensures var sid := SequenceIdOf(line).value;
            var r := HyperlinkLineOf(line, databases, coords, hooks);
            && (r.Err? ==> MatchingRule(sid) == Some(Sinv))
            && (MatchingRule(sid).Some? && r.Ok? ==>
                  StartsWith(r.value, LinkedId(hooks.url(DefaultLinkOf(sid, databases), true), sid) + LinkOpen))
            && (MatchingRule(sid).None? && hooks.sequenceLink(sid, databases, coords).None? ==> r == Ok(line))
            && (MatchingRule(sid).None? && hooks.sequenceLink(sid, databases, coords).Some? ==>
                  r == Ok("><a href='" + hooks.url(hooks.sequenceLink(sid, databases, coords), false) + "' target='_blank'>" + sid + "</a> \n"))
  {
  }

  // ---------------------------------------------------------------- the loop

  /** A line dropped from the body: `/^<\/BODY>/`, `/^<\/HTML>/` or `/^<\/PRE>/`. */
  predicate IsSkipped(line: string)
  {
    StartsWith(line, "</BODY>") || StartsWith(line, "</HTML>") || StartsWith(line, "</PRE>")
  }

  const ScriptTag: string := "<script src=\"blastResult.js\"></script>"

  /** `line.gsub!(/^<script src=\"blastResult.js\"><\/script>/, '')`. */
  function RemoveScript(line: string): (r: string)
    ensures StartsWith(line, ScriptTag) ==> line == ScriptTag + r
    ensures !StartsWith(line, ScriptTag) ==> r == line
  {
    if StartsWith(line, ScriptTag) then
      assert line == line[..|ScriptTag|] + line[|ScriptTag|..];
      line[|ScriptTag|..]
    else line
  }

  /** `/^<b>Query=<\/b> (.*)/` and its capture: the query's name, to the end of the first line. */
  function QueryName(line: string): (r: Option<string>)
    ensures r.Some? <==> StartsWith(line, "<b>Query=</b> ")
    ensures r.Some? ==> '\n' !in r.value && StartsWith(line, "<b>Query=</b> " + r.value)
  {
    if StartsWith(line, "<b>Query=</b> ") then
      var name := line[14..LineEnd(line, 14)];
      assert line[..|"<b>Query=</b> " + name|] == line[..14] + name;
      assert forall j :: 0 <= j < |name| ==> name[j] == line[14 + j];
      Some(name)
    else None
  }

  /** The `<div>` that opens a query's results, closing the previous query's first. */
  function QueryHeader(name: string, queries: nat): (r: string)
    ensures StartsWith(r, "</pre></div>\n") <==> queries > 0
    ensures EndsWith(r, "<div class=\"resultn\" id=\"" + name + "\">\n<h3>Query= " + name + "</h3><pre>")
  {
    var open := "<div class=\"resultn\" id=\"" + name + "\">\n<h3>Query= " + name + "</h3><pre>";
    assert open[0] == '<' && open[1] == 'd';
    if queries == 0 then open
    else
      var r := "</pre></div>\n" + open;
      assert r[|r| - |open|..] == open;
      r
  }

  /** The formatter's local variables and the retrievable ids, between two rounds of its loop. */
  datatype Progress = Progress(
    formatted: string,      // formatted_result
    ids: seq<string>,       // @all_retrievable_ids
    queries: nat,           // blast_database_number
    lineNumber: nat,        // line_number
    summaryDone: bool,      // finished_database_summary
    alignmentsDone: bool,   // finished_alignments
    reference: string,      // reference_string
    summary: string)        // database_summary_string

  const Start: Progress := Progress("", [], 0, 0, false, false, "", "")

  /** The ids a hit line adds to the retrievable ones, once its anchor has been moved. */
  function LineIds(line: string): seq<string>
  {
    match SequenceIdOf(MoveLeadingAnchor(MoveAnchorAfterId(line)))
    case Ok(sid) => Retrieved(sid)
    case Err(_) => []
  }

  /** A line of the body, after the banner, reference and summary have taken theirs. */
  function BodyLine(p: Progress, line: string, rest: seq<string>, databases: seq<string>, hooks: Hooks): (r: Result<Progress>)
    ensures r.Ok? ==> r.value.lineNumber == p.lineNumber && r.value.summaryDone == p.summaryDone
    ensures r.Ok? ==> r.value.reference == p.reference && r.value.summary == p.summary
    ensures r.Ok? ==> r.value.queries == p.queries + if QueryName(line).Some? then 1 else 0
    ensures r.Ok? ==> (r.value.alignmentsDone <==> p.alignmentsDone || StartsWith(line, "  Database: "))
    ensures !StartsWith(line, ">") ==> r.Ok?
    ensures r.Ok? ==> r.value.ids == p.ids + if StartsWith(line, ">") then LineIds(line) else []
  {
    assert StartsWith(line, ">") ==> line[0] == line[..1][0] == '>';
    assert StartsWith(line, "<b>Query=</b> ") ==> line[0] == line[..14][0] == '<';
    assert StartsWith(line, "  Database: ") ==> line[0] == line[..12][0] == ' ';
    if StartsWith(line, ">") then
      var moved := MoveLeadingAnchor(MoveAnchorAfterId(line));
      var coords :- HitCoordinates(rest);
      var sid :- SequenceIdOf(moved);
      var text :- HyperlinkLineOf(moved, databases, coords, hooks);
      Ok(p.(formatted := p.formatted + text, ids := p.ids + Retrieved(sid)))
    else
      match QueryName(line)
      case Some(name) => Ok(p.(formatted := p.formatted + QueryHeader(name, p.queries), queries := p.queries + 1))
      case None =>
        if StartsWith(line, "  Database: ") && !p.alignmentsDone then
          Ok(p.(formatted := p.formatted + "</div>\n<pre>" + p.summary + "\n\n" + line, alignmentsDone := true))
        else Ok(p.(formatted := p.formatted + line))
  }

  /** One round of the loop: line `p.lineNumber + 1`, with the lines after it for the look-ahead. */
  function Step(p: Progress, line: string, rest: seq<string>, databases: seq<string>, hooks: Hooks): (r: Result<Progress>)
    ensures r.Ok? ==> r.value.lineNumber == p.lineNumber + 1
  {
    var n := p.lineNumber + 1;
    var q := p.(lineNumber := n);
    if n <= 5 then Ok(q)
    else if 7 <= n <= 15 then Ok(q.(reference := q.reference + line))
    else if !q.summaryDone && n > 15 then
      Ok(q.(summary := q.summary + line, summaryDone := Contains(line, "total letters")))
    else if IsSkipped(line) then Ok(q)
    else BodyLine(q, RemoveScript(line), rest, databases, hooks)
  }

  /** The loop after its first `k` rounds. */
  function Run(result: seq<string>, k: nat, databases: seq<string>, hooks: Hooks): (r: Result<Progress>)
    requires k <= |result|
    ensures r.Ok? ==> r.value.lineNumber == k
  {
    if k == 0 then Ok(Start)
    else
      var p :- Run(result, k - 1, databases, hooks);
      Step(p, result[k - 1], result[k..], databases, hooks)
  }

  /** The link to the FASTA of every retrievable hit, present only when there is one. */
  function RetrievalText(ids: seq<string>, databases: seq<string>, url: (Option<string>, bool) -> string): (r: string)
    ensures r == "" <==> ids == []
    ensures ids != [] ==> EndsWith(r, "'>FASTA of " + IntToString(|ids|) + " retrievable hit(s)</a>")
  {
    if ids == [] then ""
    else
      var link := "/get_sequence/?id=" + Join(ids, " ") + "&db=" + Join(databases, " ");
      var tail := "'>FASTA of " + IntToString(|ids|) + " retrievable hit(s)</a>";
      var r := "<a href='" + url(Some(link), false) + tail;
      assert r[|r| - |tail|..] == tail;
      r
  }

  /** The page once every line has been read. */
  function Page(p: Progress, databases: seq<string>, url: (Option<string>, bool) -> string): string
  {
    PageHead(p.ids, databases, url) + p.formatted + PageTail(p.reference)
  }

  /** The title and the retrieval link. */
  function PageHead(ids: seq<string>, databases: seq<string>, url: (Option<string>, bool) -> string): string
  {
    "<h2>Results</h2>" + RetrievalText(ids, databases, url) + "<br/><br/>"
  }

  /** The closing `</pre>` of the body, then the stripped reference. */
  function PageTail(reference: string): string
  {
    "</pre><br/><pre>" + Strip(reference) + "</pre>"
  }

  /** `format_blast_results`: the page and the retrievable ids it collected. */
  function FormatOf(result: seq<string>, databases: seq<string>, hooks: Hooks): Result<(string, seq<string>)>
  {
    var p :- Run(result, |result|, databases, hooks);
    Ok((Page(p, databases, hooks.url), p.ids))
  }

  // ---------------------------------------------------------------- what the loop does to each line

  /** The first line, from the sixteenth on and among the first `hi`, that mentions `total letters`. */
  function FirstTotal(result: seq<string>, hi: nat): (r: Option<nat>)
    requires hi <= |result|
    ensures r.Some? ==> 15 <= r.value < hi && Contains(result[r.value], "total letters")
    ensures r.Some? ==> forall j :: 15 <= j < r.value ==> !Contains(result[j], "total letters")
    ensures r.None? ==> forall j :: 15 <= j < hi ==> !Contains(result[j], "total letters")
  {
    if hi <= 15 then None
    else match FirstTotal(result, hi - 1)
      case Some(t) => Some(t)
      case None => if Contains(result[hi - 1], "total letters") then Some(hi - 1) else None
  }

  /** The database summary among the first `k` lines: from the sixteenth up to the first `total letters` line. */
  function SummaryLines(result: seq<string>, k: nat): seq<string>
    requires k <= |result|
  {
    if k <= 15 then []
    else match FirstTotal(result, k)
      case Some(t) => result[15..t + 1]
      case None => result[15..k]
  }

  /** Line `i + 1` is read as part of the body: line 6, or a line after the summary. */
  predicate InBody(result: seq<string>, i: nat)
    requires i < |result|
  {
    i == 5 || (i >= 15 && FirstTotal(result, i).Some?)
  }

  /** Line `i + 1` is a body line the loop keeps, after the script tag is removed. */
  predicate Kept(result: seq<string>, i: nat)
    requires i < |result|
  {
    InBody(result, i) && !IsSkipped(result[i])
  }

  predicate QueryLine(result: seq<string>, i: nat)
    requires i < |result|
  {
    Kept(result, i) && QueryName(RemoveScript(result[i])).Some?
  }

  predicate DatabaseLine(result: seq<string>, i: nat)
    requires i < |result|
  {
    Kept(result, i) && StartsWith(RemoveScript(result[i]), "  Database: ")
  }

  /** The number of query titles among the first `k` lines. */
  function QueryCount(result: seq<string>, k: nat): nat
    requires k <= |result|
  {
    if k == 0 then 0 else QueryCount(result, k - 1) + (if QueryLine(result, k - 1) then 1 else 0)
  }

  /** Lines 1 to 5 are read and dropped: the loop's outcome does not depend on them. */
  lemma BannerIgnored(a: seq<string>, b: seq<string>, k: nat, databases: seq<string>, hooks: Hooks)
    requires |a| == |b| && k <= |a|
    requires forall i :: 5 <= i < |a| ==> a[i] == b[i]
    ensures Run(a, k, databases, hooks) == Run(b, k, databases, hooks)
  {
    var n := if |a| < 5 then |a| else 5;
    assert a[n..] == b[n..];
    SameAfterBanner(a, b, n, k, databases, hooks);
  }

  /** `BannerIgnored`, with the lines after the banner given as one equal tail. */
  lemma {:induction false} SameAfterBanner(a: seq<string>, b: seq<string>, n: nat, k: nat, databases: seq<string>, hooks: Hooks)
    requires |a| == |b| && k <= |a| && n <= 5 && n <= |a| && (n < 5 ==> n == |a|)
    requires a[n..] == b[n..]
    ensures Run(a, k, databases, hooks) == Run(b, k, databases, hooks)
  {
    if k > 0 {
      SameAfterBanner(a, b, n, k - 1, databases, hooks);
      var r := Run(a, k - 1, databases, hooks);
      if r.Ok? {
        if k - 1 >= 5 {
          TailsAgree(a, b, n, k);
        } else {
          BannerStep(r.value, a[k - 1], a[k..], b[k - 1], b[k..], databases, hooks);
        }
      }
    }
  }

  lemma TailsAgree(a: seq<string>, b: seq<string>, n: nat, k: nat)
    requires |a| == |b| && n < k <= |a| && a[n..] == b[n..]
    ensures a[k - 1] == b[k - 1] && a[k..] == b[k..]
  {
    assert a[k - 1] == a[n..][k - 1 - n] == b[n..][k - 1 - n] == b[k - 1];
    assert a[k..] == a[n..][k - n..] == b[n..][k - n..] == b[k..];
  }

  lemma BannerStep(p: Progress, line: string, rest: seq<string>, line': string, rest': seq<string>, databases: seq<string>, hooks: Hooks)
    requires p.lineNumber < 5
    ensures Step(p, line, rest, databases, hooks) == Step(p, line', rest', databases, hooks) == Ok(p.(lineNumber := p.lineNumber + 1))
  {
  }

  /** The page does not depend on the first five lines. */
  lemma BannerDropped(a: seq<string>, b: seq<string>, databases: seq<string>, hooks: Hooks)
    requires |a| == |b| && forall i :: 5 <= i < |a| ==> a[i] == b[i]
    ensures FormatOf(a, databases, hooks) == FormatOf(b, databases, hooks)
  {
    BannerIgnored(a, b, |a|, databases, hooks);
  }

  /** The reference buffer holds lines 7 to 15, and nothing else. */
  lemma {:induction false} ReferenceLines(result: seq<string>, k: nat, databases: seq<string>, hooks: Hooks)
    requires k <= |result| && Run(result, k, databases, hooks).Ok?
    ensures Run(result, k, databases, hooks).value.reference
            == Concat(result[if k < 6 then k else 6..if k < 15 then k else 15])
  {
    if k > 0 {
      RunNext(result, k - 1, databases, hooks);
      ReferenceLines(result, k - 1, databases, hooks);
      StepReference(Run(result, k - 1, databases, hooks).value, result[k - 1], result[k..], databases, hooks);
      if 7 <= k <= 15 {
        assert result[6..k][..k - 7] == result[6..k - 1];
      }
    }
  }

  /** Lines 7 to 15 go to the reference and no other line does. */
  lemma StepReference(p: Progress, line: string, rest: seq<string>, databases: seq<string>, hooks: Hooks)
    requires Step(p, line, rest, databases, hooks).Ok?
    ensures Step(p, line, rest, databases, hooks).value.reference
            == p.reference + if 7 <= p.lineNumber + 1 <= 15 then line else ""
  {
  }

  /** The summary latch: the summary holds lines 16 up to the first `total letters` line, and closes there. */
  lemma {:induction false} SummaryCapture(result: seq<string>, k: nat, databases: seq<string>, hooks: Hooks)
    requires k <= |result| && Run(result, k, databases, hooks).Ok?
    ensures Run(result, k, databases, hooks).value.summaryDone <==> FirstTotal(result, k).Some?
    ensures Run(result, k, databases, hooks).value.summary == Concat(SummaryLines(result, k))
  {
    if k > 0 {
      SummaryRound(result, k - 1, databases, hooks);
      SummaryCapture(result, k - 1, databases, hooks);
      SummaryLinesStep(result, k);
    }
  }

  /** Round `i + 1`'s effect on the summary and its latch, in terms of the rounds before it. */
  lemma SummaryRound(result: seq<string>, i: nat, databases: seq<string>, hooks: Hooks)
    requires i < |result| && Run(result, i + 1, databases, hooks).Ok?
    ensures Run(result, i, databases, hooks).Ok?
    ensures var p, r := Run(result, i, databases, hooks).value, Run(result, i + 1, databases, hooks).value;
            var open := !p.summaryDone && i + 1 > 15;
            (r.summaryDone <==> p.summaryDone || (open && Contains(result[i], "total letters")))
            && r.summary == if open then p.summary + result[i] else p.summary
  {
    RunNext(result, i, databases, hooks);
    StepSummary(Run(result, i, databases, hooks).value, result[i], result[i + 1..], databases, hooks);
  }

  /** One round of the loop, once the rounds before it have not raised. */
  lemma RunNext(result: seq<string>, i: nat, databases: seq<string>, hooks: Hooks)
    requires i < |result| && Run(result, i + 1, databases, hooks).Ok?
    ensures Run(result, i, databases, hooks).Ok?
    ensures Run(result, i, databases, hooks).value.lineNumber == i
    ensures Run(result, i + 1, databases, hooks)
            == Step(Run(result, i, databases, hooks).value, result[i], result[i + 1..], databases, hooks)
  {
  }

  /** What one round does to the summary and its latch. */
  lemma StepSummary(p: Progress, line: string, rest: seq<string>, databases: seq<string>, hooks: Hooks)
    requires Step(p, line, rest, databases, hooks).Ok?
    ensures var r := Step(p, line, rest, databases, hooks).value;
            var open := !p.summaryDone && p.lineNumber + 1 > 15;
            (r.summaryDone <==> p.summaryDone || (open && Contains(line, "total letters")))
            && r.summary == if open then p.summary + line else p.summary
  {
  }

  /** The summary lines grow by the next line while the latch is open. */
  lemma SummaryLinesStep(result: seq<string>, k: nat)
    requires 0 < k <= |result|
    ensures FirstTotal(result, k).Some? <==> FirstTotal(result, k - 1).Some? || (k > 15 && Contains(result[k - 1], "total letters"))
    ensures Concat(SummaryLines(result, k)) ==
            if FirstTotal(result, k - 1).None? && k > 15 then Concat(SummaryLines(result, k - 1)) + result[k - 1]
            else Concat(SummaryLines(result, k - 1))
  {
    if k > 16 && FirstTotal(result, k - 1).None? {
      assert result[15..k][..k - 16] == result[15..k - 1];
      if Contains(result[k - 1], "total letters") {
        assert SummaryLines(result, k) == result[15..k];
      }
    }
    if k == 16 {
      assert result[15..16][..0] == [];
    }
  }

  /** The round after `k` rounds that reached `p`. */
  lemma RunFrom(result: seq<string>, k: nat, p: Progress, databases: seq<string>, hooks: Hooks)
    requires k < |result| && Run(result, k, databases, hooks) == Ok(p)
    ensures Run(result, k + 1, databases, hooks) == Step(p, result[k], result[k + 1..], databases, hooks)
  {
  }

  /** The summary latch is closed exactly once a `total letters` line has been read. */
  lemma LatchClosed(result: seq<string>, i: nat, databases: seq<string>, hooks: Hooks)
    requires i <= |result| && Run(result, i, databases, hooks).Ok?
    ensures Run(result, i, databases, hooks).value.summaryDone <==> FirstTotal(result, i).Some?
  {
    SummaryCapture(result, i, databases, hooks);
  }

  /** The round reads its line as part of the body: line 6, or a line after the closed summary. */
  predicate BodyRound(p: Progress)
  {
    p.lineNumber == 5 || (p.lineNumber >= 15 && p.summaryDone)
  }

  /** What one round does to the ids, the query counter and the alignments latch. */
  lemma StepFields(p: Progress, line: string, rest: seq<string>, databases: seq<string>, hooks: Hooks)
    requires Step(p, line, rest, databases, hooks).Ok?
    ensures var r := Step(p, line, rest, databases, hooks).value;
            var kept := BodyRound(p) && !IsSkipped(line);
            var l := RemoveScript(line);
            && r.ids == p.ids + (if kept && StartsWith(l, ">") then LineIds(l) else [])
            && r.queries == p.queries + (if kept && QueryName(l).Some? then 1 else 0)
            && (r.alignmentsDone <==> p.alignmentsDone || (kept && StartsWith(l, "  Database: ")))
  {
    if BodyRound(p) {
      StepInBody(p, line, rest, databases, hooks);
    } else {
      StepOutside(p, line, rest, databases, hooks);
    }
  }

  /** The round of line `i + 1` in terms of the rounds before it. */
  lemma RoundStart(result: seq<string>, i: nat, databases: seq<string>, hooks: Hooks)
    requires i < |result| && Run(result, i + 1, databases, hooks).Ok?
    ensures Run(result, i, databases, hooks).Ok?
    ensures Run(result, i + 1, databases, hooks)
            == Step(Run(result, i, databases, hooks).value, result[i], result[i + 1..], databases, hooks)
    ensures BodyRound(Run(result, i, databases, hooks).value) <==> InBody(result, i)
  {
    RunNext(result, i, databases, hooks);
    LatchClosed(result, i, databases, hooks);
  }

  lemma RoundIds(result: seq<string>, i: nat, databases: seq<string>, hooks: Hooks)
    requires i < |result| && Run(result, i + 1, databases, hooks).Ok?
    ensures Run(result, i, databases, hooks).Ok?
    ensures Run(result, i + 1, databases, hooks).value.ids
            == Run(result, i, databases, hooks).value.ids + if HitLine(result, i) then LineIds(RemoveScript(result[i])) else []
  {
    RoundStart(result, i, databases, hooks);
    StepFields(Run(result, i, databases, hooks).value, result[i], result[i + 1..], databases, hooks);
  }

  lemma RoundQueries(result: seq<string>, i: nat, databases: seq<string>, hooks: Hooks)
    requires i < |result| && Run(result, i + 1, databases, hooks).Ok?
    ensures Run(result, i, databases, hooks).Ok?
    ensures Run(result, i + 1, databases, hooks).value.queries
            == Run(result, i, databases, hooks).value.queries + if QueryLine(result, i) then 1 else 0
  {
    RoundStart(result, i, databases, hooks);
    StepFields(Run(result, i, databases, hooks).value, result[i], result[i + 1..], databases, hooks);
  }

  lemma RoundAlignments(result: seq<string>, i: nat, databases: seq<string>, hooks: Hooks)
    requires i < |result| && Run(result, i + 1, databases, hooks).Ok?
    ensures Run(result, i, databases, hooks).Ok?
    ensures Run(result, i + 1, databases, hooks).value.alignmentsDone
            <==> Run(result, i, databases, hooks).value.alignmentsDone || DatabaseLine(result, i)
  {
    RoundStart(result, i, databases, hooks);
    StepFields(Run(result, i, databases, hooks).value, result[i], result[i + 1..], databases, hooks);
  }

  /** A line of the body goes to `BodyLine` unless it is skipped. */
  lemma BodyStep(result: seq<string>, i: nat, databases: seq<string>, hooks: Hooks)
    requires i < |result| && InBody(result, i) && Run(result, i, databases, hooks).Ok?
    ensures var q := Run(result, i, databases, hooks).value.(lineNumber := i + 1);
            Run(result, i + 1, databases, hooks)
            == if IsSkipped(result[i]) then Ok(q) else BodyLine(q, RemoveScript(result[i]), result[i + 1..], databases, hooks)
  {
    SummaryCapture(result, i, databases, hooks);
    var p := Run(result, i, databases, hooks).value;
    assert Run(result, i + 1, databases, hooks) == Step(p, result[i], result[i + 1..], databases, hooks);
    StepInBody(p, result[i], result[i + 1..], databases, hooks);
  }

  lemma StepInBody(p: Progress, line: string, rest: seq<string>, databases: seq<string>, hooks: Hooks)
    requires p.lineNumber == 5 || (p.lineNumber >= 15 && p.summaryDone)
    ensures var q := p.(lineNumber := p.lineNumber + 1);
            Step(p, line, rest, databases, hooks)
            == if IsSkipped(line) then Ok(q) else BodyLine(q, RemoveScript(line), rest, databases, hooks)
  {
    var n := p.lineNumber + 1;
    assert !(n <= 5) && !(7 <= n <= 15) && !(!p.summaryDone && n > 15);
  }

  /** Any other line leaves the page, the ids, the query count and the alignments latch alone. */
  lemma OutsideStep(result: seq<string>, i: nat, databases: seq<string>, hooks: Hooks)
    requires i < |result| && !InBody(result, i) && Run(result, i, databases, hooks).Ok?
    ensures Run(result, i + 1, databases, hooks).Ok?
    ensures var p, p' := Run(result, i, databases, hooks).value, Run(result, i + 1, databases, hooks).value;
            p'.formatted == p.formatted && p'.ids == p.ids && p'.queries == p.queries && p'.alignmentsDone == p.alignmentsDone
  {
    SummaryCapture(result, i, databases, hooks);
    var p := Run(result, i, databases, hooks).value;
    assert Run(result, i + 1, databases, hooks) == Step(p, result[i], result[i + 1..], databases, hooks);
    StepOutside(p, result[i], result[i + 1..], databases, hooks);
  }

  lemma StepOutside(p: Progress, line: string, rest: seq<string>, databases: seq<string>, hooks: Hooks)
    requires p.lineNumber != 5 && (p.lineNumber < 15 || !p.summaryDone)
    ensures Step(p, line, rest, databases, hooks).Ok?
    ensures var r := Step(p, line, rest, databases, hooks).value;
            r.formatted == p.formatted && r.ids == p.ids && r.queries == p.queries && r.alignmentsDone == p.alignmentsDone
  {
  }

  /** A skipped line of the body is read and dropped. */
  lemma SkippedDropped(result: seq<string>, i: nat, databases: seq<string>, hooks: Hooks)
    requires i < |result| && InBody(result, i) && IsSkipped(result[i]) && Run(result, i, databases, hooks).Ok?
    ensures Run(result, i + 1, databases, hooks) == Ok(Run(result, i, databases, hooks).value.(lineNumber := i + 1))
  {
    BodyStep(result, i, databases, hooks);
  }

  /** A query title that is not a hit line: `<b>Query=` starts with `<`. */
  lemma QueryNotHit(line: string)
    requires QueryName(line).Some?
    ensures !StartsWith(line, ">") && !StartsWith(line, "  Database: ")
  {
    assert line[0] == line[..14][0] == '<';
  }

  /** The query counter counts the query titles read so far. */
  lemma {:induction false} QueriesCounted(result: seq<string>, k: nat, databases: seq<string>, hooks: Hooks)
    requires k <= |result| && Run(result, k, databases, hooks).Ok?
    ensures Run(result, k, databases, hooks).value.queries == QueryCount(result, k)
  {
    if k > 0 {
      RoundQueries(result, k - 1, databases, hooks);
      QueriesCounted(result, k - 1, databases, hooks);
    }
  }

  /** Each query title opens a results `<div>`, closing the previous one unless it is the first. */
  lemma QueryOpensDiv(result: seq<string>, i: nat, databases: seq<string>, hooks: Hooks)
    requires i < |result| && QueryLine(result, i) && Run(result, i, databases, hooks).Ok?
    ensures Run(result, i + 1, databases, hooks)
            == Ok(Run(result, i, databases, hooks).value.(
                    lineNumber := i + 1,
                    formatted := Run(result, i, databases, hooks).value.formatted
                                 + QueryHeader(QueryName(RemoveScript(result[i])).value, QueryCount(result, i)),
                    queries := QueryCount(result, i) + 1))
  {
    QueriesCounted(result, i, databases, hooks);
    BodyStep(result, i, databases, hooks);
    var line := RemoveScript(result[i]);
    var q := Run(result, i, databases, hooks).value.(lineNumber := i + 1);
    BodyLineQuery(q, line, result[i + 1..], databases, hooks);
  }

  /** A query title is never a hit line, so it opens a `<div>` and bumps the query counter. */
  lemma BodyLineQuery(p: Progress, line: string, rest: seq<string>, databases: seq<string>, hooks: Hooks)
    requires QueryName(line).Some?
    ensures BodyLine(p, line, rest, databases, hooks)
            == Ok(p.(formatted := p.formatted + QueryHeader(QueryName(line).value, p.queries), queries := p.queries + 1))
  {
    QueryNotHit(line);
  }

  /** The alignments latch is set exactly when a `  Database: ` line has been read in the body. */
  lemma {:induction false} AlignmentsLatch(result: seq<string>, k: nat, databases: seq<string>, hooks: Hooks)
    requires k <= |result| && Run(result, k, databases, hooks).Ok?
    ensures Run(result, k, databases, hooks).value.alignmentsDone <==> exists i :: 0 <= i < k && DatabaseLine(result, i)
  {
    if k > 0 {
      RoundAlignments(result, k - 1, databases, hooks);
      AlignmentsLatch(result, k - 1, databases, hooks);
      DatabaseLineBefore(result, k);
    }
  }

  /** A `Database:` line before line `k` is the one just before it or one before that. */
  lemma DatabaseLineBefore(result: seq<string>, k: nat)
    requires 0 < k <= |result|
    ensures (exists i :: 0 <= i < k && DatabaseLine(result, i))
            <==> (exists i :: 0 <= i < k - 1 && DatabaseLine(result, i)) || DatabaseLine(result, k - 1)
  {
    if exists i :: 0 <= i < k && DatabaseLine(result, i) {
      var i :| 0 <= i < k && DatabaseLine(result, i);
      if i < k - 1 {
        assert 0 <= i < k - 1 && DatabaseLine(result, i);
      }
    }
    if DatabaseLine(result, k - 1) {
      assert 0 <= k - 1 < k && DatabaseLine(result, k - 1);
    }
  }

  lemma DatabaseNotQuery(line: string)
    requires StartsWith(line, "  Database: ")
    ensures !StartsWith(line, ">") && QueryName(line).None?
  {
    assert line[0] == line[..12][0] == ' ';
  }

  /**
   * The first `  Database: ` line of the body brings the summary in before it; every later one is
   * copied as it is.
   */
  lemma DatabaseStep(result: seq<string>, i: nat, databases: seq<string>, hooks: Hooks)
    requires i < |result| && DatabaseLine(result, i) && Run(result, i, databases, hooks).Ok?
    ensures var p := Run(result, i, databases, hooks).value;
            var first := forall j :: 0 <= j < i ==> !DatabaseLine(result, j);
            var line := RemoveScript(result[i]);
            Run(result, i + 1, databases, hooks)
            == Ok(p.(lineNumber := i + 1,
                     formatted := if first then p.formatted + "</div>\n<pre>" + Concat(SummaryLines(result, i)) + "\n\n" + line
                                  else p.formatted + line,
                     alignmentsDone := true))
  {
    AlignmentsLatch(result, i, databases, hooks);
    SummaryCapture(result, i, databases, hooks);
    BodyStep(result, i, databases, hooks);
    var p := Run(result, i, databases, hooks).value;
    BodyLineDatabase(p.(lineNumber := i + 1), RemoveScript(result[i]), result[i + 1..], databases, hooks);
  }

  lemma BodyLineDatabase(p: Progress, line: string, rest: seq<string>, databases: seq<string>, hooks: Hooks)
    requires StartsWith(line, "  Database: ")
    ensures BodyLine(p, line, rest, databases, hooks)
            == Ok(p.(formatted := if p.alignmentsDone then p.formatted + line
                                  else p.formatted + "</div>\n<pre>" + p.summary + "\n\n" + line,
                     alignmentsDone := true))
  {
    DatabaseNotQuery(line);
  }

  predicate HitLine(result: seq<string>, i: nat)
    requires i < |result|
  {
    Kept(result, i) && StartsWith(RemoveScript(result[i]), ">")
  }

  /** The retrievable ids of the hit lines among the first `k`, in order. */
  function HitIds(result: seq<string>, k: nat): seq<string>
    requires k <= |result|
  {
    if k == 0 then [] else HitIds(result, k - 1) + if HitLine(result, k - 1) then LineIds(RemoveScript(result[k - 1])) else []
  }

  /** `@all_retrievable_ids` collects the ids of the hit lines read so far, in order. */
  lemma {:induction false} IdsCollected(result: seq<string>, k: nat, databases: seq<string>, hooks: Hooks)
    requires k <= |result| && Run(result, k, databases, hooks).Ok?
    ensures Run(result, k, databases, hooks).value.ids == HitIds(result, k)
  {
    if k > 0 {
      RoundIds(result, k - 1, databases, hooks);
      IdsCollected(result, k - 1, databases, hooks);
    }
  }

  /**
   * The page: its title, the retrieval link that is there exactly when a hit had an `lcl|` id,
   * the body, and the reference lines 7 to 15 at the end.
   */
  lemma PageShape(result: seq<string>, databases: seq<string>, hooks: Hooks)
    requires FormatOf(result, databases, hooks).Ok?
    ensures var (page, ids) := FormatOf(result, databases, hooks).value;
            ids == HitIds(result, |result|)
            && StartsWith(page, PageHead(ids, databases, hooks.url))
            && EndsWith(page, PageTail(Concat(result[if |result| < 6 then |result| else 6..if |result| < 15 then |result| else 15])))
  {
    var k := |result|;
    IdsCollected(result, k, databases, hooks);
    ReferenceLines(result, k, databases, hooks);
    var p := Run(result, k, databases, hooks).value;
    Framed(PageHead(p.ids, databases, hooks.url), p.formatted, PageTail(p.reference));
  }

  lemma Framed(head: string, body: string, tail: string)
    ensures StartsWith(head + body + tail, head) && EndsWith(head + body + tail, tail)
  {
    var s := head + body + tail;
    assert s[..|head|] == head;
    assert s[|s| - |tail|..] == tail;
  }

  /** Once a round of the loop raises, the whole formatting raises. */
  lemma {:induction false} RaiseStops(result: seq<string>, k: nat, databases: seq<string>, hooks: Hooks)
    requires k <= |result| && Run(result, k, databases, hooks).Err?
    ensures FormatOf(result, databases, hooks).Err?
  {
    RaiseSticks(result, k, |result|, databases, hooks);
  }

  lemma {:induction false} RaiseSticks(result: seq<string>, k: nat, j: nat, databases: seq<string>, hooks: Hooks)
    requires k <= j <= |result| && Run(result, k, databases, hooks).Err?
    ensures Run(result, j, databases, hooks).Err?
  {
    if k < j {
      RaiseSticks(result, k, j - 1, databases, hooks);
      var r := Run(result, j - 1, databases, hooks);
      assert Run(result, j, databases, hooks) == r.PropagateFailure();
    }
  }

  // ---------------------------------------------------------------- the application

  /** The application object: its hooks and the ids `default_link` accumulates. */
  class App {
    var allRetrievableIds: seq<string>
    const hooks: Hooks

    constructor(hooks: Hooks)
      ensures this.hooks == hooks && allRetrievableIds == []
    {
      this.hooks := hooks;
      allRetrievableIds := [];
    }

    /** `default_link`: the FASTA link of an `lcl|` id, whose id joins the retrievable ones. */
    method DefaultLink(sid: string, databases: seq<string>) returns (link: Option<string>)
      modifies this
      ensures link == DefaultLinkOf(sid, databases)
      ensures allRetrievableIds == old(allRetrievableIds) + Retrieved(sid)
    {
      match LclId(sid) {
        case None =>
          link := None;
        case Some(id) =>
          allRetrievableIds := allRetrievableIds + [id];
          link := Some("/get_sequence/?id=" + id + "&db=" + Join(databases, " "));
      }
    }

    /** `construct_custom_sequence_hyperlinking_line`: `default_link` runs first, whatever row matches. */
    method ConstructCustomLine(sid: string, databases: seq<string>, coords: Coordinates) returns (r: Result<Option<string>>)
      modifies this
      ensures r == CustomLine(sid, hooks.url(DefaultLinkOf(sid, databases), true), coords, hooks.sinv)
      ensures allRetrievableIds == old(allRetrievableIds) + Retrieved(sid)
    {
      var link := DefaultLink(sid, databases);
      r := CustomLine(sid, hooks.url(link, true), coords, hooks.sinv);
    }

    /** `construct_sequence_hyperlink_line`: the custom line, else the hit's link, else the line. */
    method ConstructSequenceHyperlinkLine(line: string, databases: seq<string>, coords: Coordinates) returns (r: Result<string>)
      modifies this
      ensures r == HyperlinkLineOf(line, databases, coords, hooks)
      ensures allRetrievableIds == old(allRetrievableIds) + match SequenceIdOf(line) case Ok(sid) => Retrieved(sid) case Err(_) => []
    {
      var sid := SequenceIdOf(line);
      if sid.Err? {
        return Err(sid.error);
      }
      var custom := ConstructCustomLine(sid.value, databases, coords);
      if custom.Err? {
        return Err(custom.error);
      }
      if custom.value.Some? {
        return Ok(custom.value.value);
      }
      var link := hooks.sequenceLink(sid.value, databases, coords);
      if link.None? {
        return Ok(line);
      }
      return Ok("><a href='" + hooks.url(link, false) + "' target='_blank'>" + sid.value + "</a> \n");
    }

    /** One kept line of the body: a hit line is linked, a query line opens its div, the first database line closes the summary. */
    method FormatBodyLine(p: Progress, line: string, rest: seq<string>, databases: seq<string>) returns (r: Result<Progress>)
      requires p.ids == allRetrievableIds
      modifies this
      ensures r == BodyLine(p, line, rest, databases, hooks)
      ensures r.Ok? ==> allRetrievableIds == r.value.ids
    {
      assert StartsWith(line, ">") ==> line[0] == line[..1][0] == '>';
      assert StartsWith(line, "<b>Query=</b> ") ==> line[0] == line[..14][0] == '<';
      assert StartsWith(line, "  Database: ") ==> line[0] == line[..12][0] == ' ';
      if StartsWith(line, ">") {
        var moved := MoveLeadingAnchor(MoveAnchorAfterId(line));
        var coords := HitCoordinates(rest);
        if coords.Err? {
          return Err(coords.error);
        }
        var text := ConstructSequenceHyperlinkLine(moved, databases, coords.value);
        if text.Err? {
          return Err(text.error);
        }
        return Ok(p.(formatted := p.formatted + text.value, ids := allRetrievableIds));
      }
      var formatted := p.formatted;
      var queries := p.queries;
      var alignmentsDone := p.alignmentsDone;
      var shown := line;
      match QueryName(line) {
        case Some(name) =>
          shown := QueryHeader(name, queries);
          queries := queries + 1;
        case None =>
          if StartsWith(line, "  Database: ") && !alignmentsDone {
            formatted := formatted + "</div>\n<pre>" + p.summary + "\n\n";
            alignmentsDone := true;
          }
      }
      return Ok(p.(formatted := formatted + shown, queries := queries, alignmentsDone := alignmentsDone));
    }

    /** One round of the loop of `format_blast_results`, on the line after the `p.lineNumber` already read. */
    method FormatLine(p: Progress, line: string, rest: seq<string>, databases: seq<string>) returns (r: Result<Progress>)
      requires p.ids == allRetrievableIds
      modifies this
      ensures r == Step(p, line, rest, databases, hooks)
      ensures r.Ok? ==> allRetrievableIds == r.value.ids
    {
      var lineNumber := p.lineNumber + 1;
      var q := p.(lineNumber := lineNumber);
      if lineNumber <= 5 {
        return Ok(q);
      }
      if 7 <= lineNumber <= 15 {
        return Ok(q.(reference := q.reference + line));
      }
      if !q.summaryDone && lineNumber > 15 {
        return Ok(q.(summary := q.summary + line, summaryDone := Contains(line, "total letters")));
      }
      if IsSkipped(line) {
        return Ok(q);
      }
      StepInBody(p, line, rest, databases, hooks);
      r := FormatBodyLine(q, RemoveScript(line), rest, databases);
    }

    /** `format_blast_results`: the page, with the retrievable ids left in `allRetrievableIds`. */
    method FormatBlastResults(result: seq<string>, databases: seq<string>) returns (r: Result<string>)
      modifies this
      ensures r.Ok? <==> FormatOf(result, databases, hooks).Ok?
      ensures r.Ok? ==> r.value == FormatOf(result, databases, hooks).value.0
                        && allRetrievableIds == FormatOf(result, databases, hooks).value.1
    {
      var formatted := "";
      allRetrievableIds := [];
      var queries := 0;
      var lineNumber := 0;
      var summaryDone := false;
      var alignmentsDone := false;
      var reference := "";
      var summary := "";
      while lineNumber < |result|
        invariant lineNumber <= |result|
        invariant Run(result, lineNumber, databases, hooks)
                  == Ok(Progress(formatted, allRetrievableIds, queries, lineNumber, summaryDone, alignmentsDone, reference, summary))
      {
        var p := Progress(formatted, allRetrievableIds, queries, lineNumber, summaryDone, alignmentsDone, reference, summary);
        RunFrom(result, lineNumber, p, databases, hooks);
        var next := FormatLine(p, result[lineNumber], result[lineNumber + 1..], databases);
        if next.Err? {
          RaiseStops(result, lineNumber + 1, databases, hooks);
          return Err(next.error);
        }
        formatted, queries, lineNumber := next.value.formatted, next.value.queries, next.value.lineNumber;
        summaryDone, alignmentsDone := next.value.summaryDone, next.value.alignmentsDone;
        reference, summary := next.value.reference, next.value.summary;
      }
      var p := Progress(formatted, allRetrievableIds, queries, lineNumber, summaryDone, alignmentsDone, reference, summary);
      return Ok(Page(p, databases, hooks.url));
    }
  }
}
