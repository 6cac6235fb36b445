/**
 * The request checks of the web application: the filter in front of the
 * search form, the vetting of the user's advanced BLAST options, the options
 * the search adds, and the sequence retrieval page that warns when the number
 * of sequences found is not the number asked for.
 */
module AppChecks {
  import opened Wrappers
  import opened Text

  // ---------------------------------------------------------------- validate_advanced_parameters

  /** The options the application sets itself, in the order they are checked. */
  const Disallowed: seq<string> := ["-out", "-html", "-outfmt", "-db", "-query"]

  const InvalidCharacters: string := "Invalid characters detected in the advanced options"

  function UsedInternally(o: string): string
  {
    "The advanced BLAST option \"" + o + "\" is used internally by SequenceServer and so cannot be specified by the you"
  }

  /** `s =~ /o/i` for an option `o` written in lower case. */
  predicate MentionsOption(s: string, o: string)
  {
    Contains(ToLower(s), o)
  }

  /** The first of `options` the text mentions. */
  function FirstMentioned(s: string, options: seq<string>): (r: Option<nat>)
    ensures r.Some? ==> r.value < |options| && MentionsOption(s, options[r.value])
    ensures r.Some? ==> forall j :: 0 <= j < r.value ==> !MentionsOption(s, options[j])
    ensures r.None? ==> forall j :: 0 <= j < |options| ==> !MentionsOption(s, options[j])
  {
    if options == [] then None
    else if MentionsOption(s, options[0]) then Some(0)
    else match FirstMentioned(s, options[1..])
      case None => None
      case Some(j) => Some(j + 1)
  }

  /**
   * `validate_advanced_parameters`: the text is refused when it holds another
   * character, and then when it mentions an option the application sets. A
   * missing text is refused like a bad one, since `nil =~` never matches.
   */
  function ValidateAdvanced(advanced: Option<string>): (r: Result<()>)
    ensures r.Ok? <==> advanced.Some? && OptionsPatternMatches(advanced.value)
                       && forall o :: o in Disallowed ==> !MentionsOption(advanced.value, o)
    ensures r.Err? && (advanced.None? || !OptionsPatternMatches(advanced.value)) ==> r.error == InvalidCharacters
    ensures r.Err? && advanced.Some? && OptionsPatternMatches(advanced.value) ==>
              exists j :: 0 <= j < |Disallowed| && MentionsOption(advanced.value, Disallowed[j])
                          && r.error == UsedInternally(Disallowed[j])
  {
    match advanced
    case None => Err(InvalidCharacters)
    case Some(s) =>
      if !OptionsPatternMatches(s) then Err(InvalidCharacters)
      else match FirstMentioned(s, Disallowed)
        case None => Ok(())
        case Some(j) => Err(UsedInternally(Disallowed[j]))
  }

  /** `-outfmt` is refused, but the message names `-out`, which it contains and which is checked first. */
  lemma OutfmtReportedAsOut(s: string)
    requires OptionsPatternMatches(s) && MentionsOption(s, "-outfmt")
    ensures ValidateAdvanced(Some(s)) == Err(UsedInternally("-out"))
  {
    var t := ToLower(s);
    var j := IndexOf(t, "-outfmt").value;
    assert t[j..j + 4] == t[j..j + 7][..4] == "-out";
    ContainsAt(t, "-out", j);
  }

  // ---------------------------------------------------------------- before '/'

  /** The form fields the filter reads, `None` for one the request does not have, and the names of any other parameters it has. */
  datatype Params = Params(
    blastMethod: Option<string>,
    sequence: Option<string>,
    databases: Option<seq<string>>,
    advanced: Option<string>,
    others: seq<string>)

  /** `params.empty?`: the request has no parameter at all, read by the filter or not. */
  predicate NoParams(p: Params)
  {
    p.blastMethod.None? && p.sequence.None? && p.databases.None? && p.advanced.None? && p.others == []
  }

  /** How the filter ends: `pass`, running to its end, or `halt` with a status and a message. */
  datatype Gate = Pass | Proceed | Halt(status: nat, message: string)

  const BlastMethods: seq<string> := ["blastn", "blastp", "blastx", "tblastn", "tblastx"]

  predicate Given(field: Option<string>)
  {
    field.Some? && field.value != ""
  }

  /** The `before '/'` filter: a request with fields must name a known method, a sequence, databases and sound options. */
  function BeforeSearch(p: Params): (r: Gate)
    ensures r == Pass <==> NoParams(p)
    ensures r.Halt? ==> r.status == 400
    ensures r == Proceed <==>
              !NoParams(p) && Given(p.blastMethod) && p.blastMethod.value in BlastMethods && Given(p.sequence)
              && p.databases.Some? && ValidateAdvanced(p.advanced).Ok?
  {
    if NoParams(p) then Pass
    else if !Given(p.blastMethod) then Halt(400, "No BLAST method provided.")
    else if !Given(p.sequence) then Halt(400, "No input sequence provided.")
    else if p.databases.None? then Halt(400, "No BLAST database provided.")
    else if p.blastMethod.value !in BlastMethods then Halt(400, "Unknown BLAST method: " + p.blastMethod.value + ".")
    else match ValidateAdvanced(p.advanced)
      case Err(e) => Halt(400, "Advanced parameters invalid: " + e)
      case Ok(_) => Proceed
  }

  /** A request with only parameters the filter does not read is not passed through: it lacks a method. */
  lemma UnreadParamsChecked(p: Params)
    requires p.blastMethod.None? && p.others != []
    ensures BeforeSearch(p) == Halt(400, "No BLAST method provided.")
  {
  }

  /** The checks run in order: a missing method is reported before anything else. */
  lemma MethodCheckedFirst(p: Params)
    requires !NoParams(p) && !Given(p.blastMethod)
    ensures BeforeSearch(p) == Halt(400, "No BLAST method provided.")
  {
  }

  /** The fields are all needed: a request without the advanced options is refused as having bad characters. */
  lemma MissingAdvancedRefused(p: Params)
    requires Given(p.blastMethod) && p.blastMethod.value in BlastMethods && Given(p.sequence) && p.databases.Some?
    requires p.advanced.None?
    ensures BeforeSearch(p) == Halt(400, "Advanced parameters invalid: " + InvalidCharacters)
  {
  }

  // ---------------------------------------------------------------- post '/'

  /**
   * The options handed to BLAST: `blastn` asks for the `blastn` task unless
   * the user named a task, and the thread count always comes last.
   */
  function BlastOptions(blastMethod: string, advanced: string, threads: int): (r: string)
    ensures StartsWith(r, advanced)
    ensures EndsWith(r, " -num_threads " + IntToString(threads))
    ensures |r| == |advanced| + (if blastMethod == "blastn" && !Contains(advanced, "task") then 14 else 0)
                   + |" -num_threads " + IntToString(threads)|
    ensures r[|advanced|..|r| - |" -num_threads " + IntToString(threads)|]
            == (if blastMethod == "blastn" && !Contains(advanced, "task") then " -task blastn " else "")
  {
    var task := if blastMethod == "blastn" && !Contains(advanced, "task") then " -task blastn " else "";
    var tail := " -num_threads " + IntToString(threads);
    var r := advanced + task + tail;
    assert r[..|advanced|] == advanced;
    assert r[|r| - |tail|..] == tail;
    assert r[|advanced|..|r| - |tail|] == task;
    r
  }

  // ---------------------------------------------------------------- get '/get_sequence/'

  /** The fields of `split(/\s/)`: each whitespace character ends a field, so runs of it leave empty fields. */
  function SpaceFields(s: string): (r: seq<string>)
    ensures |r| >= 1
    ensures forall i, j :: 0 <= i < |r| && 0 <= j < |r[i]| ==> !IsSpace(r[i][j])
    decreases |s|
  {
    var n := TokenLength(s);
    if n < |s| then [s[..n]] + SpaceFields(s[n + 1..]) else [s]
  }

  /** Ruby's `split(/\s/)`: the fields, less the empty ones at the end. */
  function SplitOnSpace(s: string): seq<string>
  {
    DropTrailingEmpty(SpaceFields(s))
  }

  lemma {:induction false} SpaceFieldsJoin(ids: seq<string>)
    requires |ids| >= 1 && forall i :: 0 <= i < |ids| ==> IsToken(ids[i])
    ensures SpaceFields(Join(ids, " ")) == ids
    decreases |ids|
  {
    var s := Join(ids, " ");
    var t := ids[0];
    if |ids| == 1 {
      assert s == t + "";
      TokenLengthOfToken(t, "");
    } else {
      var rest := Join(ids[1..], " ");
      SpaceFieldsJoin(ids[1..]);
      assert s == t + " " + rest;
      assert s == t + (" " + rest);
      TokenLengthOfToken(t, " " + rest);
      assert s[|t| + 1..] == rest;
      assert s[..|t|] == t;
      assert SpaceFields(s) == [t] + SpaceFields(rest);
    }
  }

  /** The ids of the retrieval link, joined by single spaces, are read back as they were. */
  lemma IdsRoundTrip(ids: seq<string>)
    requires forall i :: 0 <= i < |ids| ==> IsToken(ids[i])
    ensures SplitOnSpace(Join(ids, " ")) == ids
  {
    if ids != [] {
      SpaceFieldsJoin(ids);
      assert ids[|ids| - 1] != "";
    }
  }

  /** What every database gave for the ids, back to back. */
  function FoundSequences(ids: seq<string>, databases: seq<string>, lookup: (seq<string>, string) -> string): string
  {
    if databases == [] then ""
    else FoundSequences(ids, databases[..|databases| - 1], lookup) + lookup(ids, databases[|databases| - 1])
  }

  /** The FASTA headers found are those every database gave, added up. */
  lemma {:induction false} FoundCount(ids: seq<string>, databases: seq<string>, lookup: (seq<string>, string) -> string)
    ensures CountChar(FoundSequences(ids, databases, lookup), '>')
            == SumCounts(ids, databases, lookup)
  {
    if databases != [] {
      var n := |databases| - 1;
      FoundCount(ids, databases[..n], lookup);
      CountCharAppend(FoundSequences(ids, databases[..n], lookup), lookup(ids, databases[n]), '>');
    }
  }

  function SumCounts(ids: seq<string>, databases: seq<string>, lookup: (seq<string>, string) -> string): nat
  {
    if databases == [] then 0
    else SumCounts(ids, databases[..|databases| - 1], lookup) + CountChar(lookup(ids, databases[|databases| - 1]), '>')
  }

  function Plural(n: int): string
  {
    if n > 1 then "s" else ""
  }

  /** The warning put above the sequences when their number is not the number asked for. */
  function MismatchHeader(found: nat, ids: seq<string>, databases: seq<string>): string
  {
    HeaderOpen + (if found > |ids| then "more" else "less") + MismatchDetails(found, ids, databases)
  }

  /** The header up to the word that says whether too many or too few were found. */
  const HeaderOpen: string :=
    HeaderStart + "<p>Dear user,</p>\n\n<p><strong>We have found\n<em>"

  function MismatchDetails(found: nat, ids: seq<string>, databases: seq<string>): string
  {
    "</em>\nsequence than expected.</strong></p>\n\n"
    + "<p>This is likely due to a problem with how databases are formatted. \n"
    + "<strong>Please share this text with the person managing this website so \n"
    + "they can resolve the issue.</strong></p>\n\n"
    + "<p> You requested " + IntToString(|ids|) + " sequence" + Plural(|ids|) + "\n"
    + "with the following identifiers: <code>" + Join(ids, ", ") + "</code>,\n"
    + "from the following databases: <code>" + Join(databases, ", ") + "</code>.\n"
    + "But we found " + IntToString(found) + " sequence" + Plural(found) + ".\n</p>\n\n"
    + "<p>If sequences were retrieved, you can find them below (but some may be incorrect, so be careful!).</p>\n<hr/>\n"
  }

  /**
   * The error heading, one literal in the source. The `<h1>` tag is its own
   * literal here so that the verifier can see the heading's first characters;
   * it cannot index that far into one long literal.
   */
  const HeaderStart: string := "<h1>" + "ERROR: incorrect number of sequences found.</h1>\n"

  /** The retrieval page for the ids and databases of the request. */
  function SequencePage(ids: seq<string>, databases: seq<string>, lookup: (seq<string>, string) -> string): string
  {
    PageOf(FoundSequences(ids, databases, lookup), ids, databases)
  }

  /** The page for what was found: the sequences, under a warning when their number is wrong. */
  function PageOf(found: string, ids: seq<string>, databases: seq<string>): (r: string)
    ensures EndsWith(r, "<pre><code>" + found + "</pre></code>")
    ensures StartsWith(r, HeaderStart) <==> CountChar(found, '>') != |ids|
  {
    var count := CountChar(found, '>');
    var body := "<pre><code>" + found + "</pre></code>";
    if count != |ids| then
      var h := MismatchHeader(count, ids, databases);
      MismatchHeading(count, ids, databases);
      HeadAndBody(h, body, HeaderStart);
      h + body
    else
      assert body[1] == 'p';
      assert HeaderStart[1] == "<h1>"[1];
      body
  }

  lemma HeadAndBody(h: string, body: string, p: string)
    requires StartsWith(h, p)
    ensures StartsWith(h + body, p) && EndsWith(h + body, body)
  {
    var r := h + body;
    assert r[..|p|] == h[..|p|];
    assert r[|r| - |body|..] == body;
  }

  /** The warning says `more` exactly when more sequences came back than were asked for. */
  lemma MismatchWording(found: nat, ids: seq<string>, databases: seq<string>)
    ensures StartsWith(MismatchHeader(found, ids, databases), HeaderOpen + if found > |ids| then "more" else "less")
  {
    StartsWithConcat(HeaderOpen + (if found > |ids| then "more" else "less"), MismatchDetails(found, ids, databases));
  }

  /** The warning opens with the error heading. */
  lemma MismatchHeading(found: nat, ids: seq<string>, databases: seq<string>)
    ensures StartsWith(MismatchHeader(found, ids, databases), HeaderStart)
  {
    var w := if found > |ids| then "more" else "less";
    MismatchWording(found, ids, databases);
    HeaderOpenStarts();
    StartsWithConcat(HeaderOpen, w);
    StartsWithTransitive(HeaderOpen + w, HeaderOpen, HeaderStart);
    StartsWithTransitive(MismatchHeader(found, ids, databases), HeaderOpen + w, HeaderStart);
  }

  lemma HeaderOpenStarts()
    ensures StartsWith(HeaderOpen, HeaderStart)
  {
    StartsWithConcat(HeaderStart, "<p>Dear user,</p>\n\n<p><strong>We have found\n<em>");
  }

  /** `get '/get_sequence/'`: a missing `id` or `db` field raises on `split`. */
  function GetSequenceOf(id: Option<string>, db: Option<string>, lookup: (seq<string>, string) -> string): Result<string>
  {
    if id.None? || db.None? then Err("undefined method `split' for nil:NilClass")
    else Ok(SequencePage(Uniq(SplitOnSpace(id.value)), SplitOnSpace(db.value), lookup))
  }

  /** The handler as written: each database is asked in turn, and what it gives is added unless it is empty. */
  method GetSequence(id: Option<string>, db: Option<string>, lookup: (seq<string>, string) -> string) returns (r: Result<string>)
    ensures r == GetSequenceOf(id, db, lookup)
  {
    if id.None? || db.None? {
      return Err("undefined method `split' for nil:NilClass");
    }
    var sequenceIds := Uniq(SplitOnSpace(id.value));
    var retrievalDatabases := SplitOnSpace(db.value);
    var foundSequences := CollectSequences(sequenceIds, retrievalDatabases, lookup);
    var out := WarnAndShow(foundSequences, sequenceIds, retrievalDatabases);
    return Ok(out);
  }

  /** The page built in `out`: the warning first when the count is wrong, then the sequences. */
  method WarnAndShow(found: string, ids: seq<string>, databases: seq<string>) returns (out: string)
    ensures out == PageOf(found, ids, databases)
  {
    var count := CountChar(found, '>');
    out := "";
    if count != |ids| {
      out := MismatchHeader(count, ids, databases);
    }
    out := out + ("<pre><code>" + found + "</pre></code>");
  }

  /** The loop over the databases, adding what each one gives. */
  method CollectSequences(ids: seq<string>, databases: seq<string>, lookup: (seq<string>, string) -> string) returns (found: string)
    ensures found == FoundSequences(ids, databases, lookup)
  {
    found := "";
    var i := 0;
    while i < |databases|
      invariant i <= |databases|
      invariant found == FoundSequences(ids, databases[..i], lookup)
    {
      var sequence := lookup(ids, databases[i]);
      if sequence != "" {
        found := found + sequence;
      }
      assert databases[..i + 1][..i] == databases[..i];
      i := i + 1;
    }
    assert databases[..i] == databases;
  }
}
