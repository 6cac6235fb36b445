# SequenceServer core in Dafny

This project models the core of SequenceServer. SequenceServer is a web front end for NCBI BLAST: a user pastes sequences, picks databases and a BLAST program, and reads the hits on an HTML page. The modelled parts are:

- **Request checks** (`AppChecks`, `BlastValidation`): the filter before the search route, the advanced-options check, the validation of method, sequences, databases and options before BLAST runs, and the reading of BLAST's exit status and error output.
- **Report** (`XmlTree`, `BlastReport`, `BlastStats`): the parsed BLAST XML turned into queries, hits and HSPs, the evalue of a hit, the sort by evalue, and the statistics shown for each HSP.
- **Result page** (`ResultPage`, `Customisation`, `Links`): the loop that rewrites BLAST's HTML output line by line, the hyperlinks it adds, the retrieval link for all hits, and the per-database custom link rules.
- **Sequence retrieval** (`AppChecks.GetSequence`, `Databases`): looking up hits by id and reporting those not found.
- **Configuration** (`CliOptions`, `NameGenerator`, `Databases`): the advanced-options table with its formats, dependencies and incompatibilities, validated against a YAML map; database naming; and the database collection.
- **Browser side** (`Search`, `AlignmentViewer`):
  - the search form guesses the type of the query and lists the BLAST programs that fit;
  - it groups and orders databases, and moves the chosen program to the front;
  - the alignment viewer cuts an HSP into lines of 60 columns with running coordinates.

`Text` holds the Ruby and JavaScript string primitives the rest relies on: `strip`, `split`, `to_i`, `to_f`, `Integer#to_s`, and JavaScript's string comparison. `Wrappers` holds `Option`, `Result` and mapping over a list with failure.

Pure Ruby and JavaScript code is modelled as functions over datatypes. The page-formatting object whose field collects the retrievable ids is `ResultPage.App`. The program button whose list is reordered in place is `Search.SearchButton`. The database panel whose selection changes is `Search.DatabasesPanel`. The collection of databases is `Databases.DatabaseCollection`. The coordinate loop of the alignment viewer and the option table are methods with loop invariants. A Ruby exception is an `Err` (or a named error outcome) wherever the source raises.

## Model

| member | source | states |
|---|---|---|
| Text.Strip | lib/sequenceserver/blast.rb:393 | `strip` leaves no whitespace at the start and neither whitespace nor a NUL at the end |
| Text.StripBlank | lib/sequenceserver/blast.rb:393 | `strip` leaves nothing exactly when every character is whitespace or NUL |
| Text.ToLower | lib/sequenceserver/blast.rb:401 | the case-insensitive match compares texts in which each upper-case letter is lowered and everything else is kept |
| Text.ReplaceChar | lib/sequenceserver/name_generator.rb:18 | `gsub('_', ' ')` replaces every underscore and keeps every other character in place |
| Text.DigitsIn | lib/sequenceserver/name_generator.rb:71 | `scan(/\d/).join('')` keeps only digits, and a text of digits unchanged |
| Text.Fields | public/js/alignment_viewer.js:37 | JavaScript's `split('-')` gives at least one field, and no field holds the separator |
| Text.FieldsJoin | public/js/alignment_viewer.js:37 | joining the fields with the separator gives the input back |
| Text.JoinFields | public/js/alignment_viewer.js:37 | splitting pieces joined by a character that none of them holds gives the pieces back |
| Text.Split | lib/sequenceserver/name_generator.rb:8 | no part of Ruby's `split('/')` holds the separator |
| Text.SplitWsTokens | lib/sequenceserver/blast.rb:63 | every word of the whitespace `split` is non-empty and holds no whitespace |
| Text.SplitWsJoin | lib/sequenceserver/blast.rb:63-64 | words joined by single spaces split back into the same words |
| Text.CountCharAppend | lib/sequenceserver.rb:200 | the `count('>')` of concatenated texts is the sum of their counts |
| Text.Uniq | lib/sequenceserver.rb:180 | `uniq` keeps the same elements, each once |
| Text.UniqOfDistinct | lib/sequenceserver.rb:180 | a list without repeats is its own `uniq` |
| Text.IntToString | lib/sequenceserver/blast.rb:132 | an integer is printed with a leading `-` exactly when it is negative |
| Text.ToIOfIntToString | lib/sequenceserver/blast.rb:115 | `to_i` reads back what `to_s` printed |
| Text.ToIOfIntToStringThen | lib/sequenceserver/blast.rb:115 | `to_i` reads a printed integer back when what follows it is neither a digit nor an underscore |
| Text.ToFOfIntToString | lib/sequenceserver/blast.rb:119 | `to_f` of a printed integer is that integer |
| Text.LexLessIrreflexive | public/js/search.js:511 | no text sorts before itself under JavaScript's `<` on strings |
| Text.LexLessTotal | public/js/search.js:511 | of two different texts, one sorts before the other |
| Text.LexLessTransitive | public/js/search.js:511 | the string order is transitive |
| Text.LexLessAsymmetric | public/js/search.js:511 | two texts never each sort before the other |
| XmlTree.FirstText | lib/sequenceserver/blast.rb:244-249 | `nil` exactly when no child is text; otherwise the first text child |
| XmlTree.NodeToValue | lib/sequenceserver/blast.rb:229-242 | a text stays itself; one of the ten named containers becomes a list with one value per child; any other element gives its first text |
| XmlTree.NodeToArray | lib/sequenceserver/blast.rb:221-227 | one value per child, in order |
| XmlTree.ContainerOfTexts | lib/sequenceserver/blast.rb:221-242 | a container whose children are all texts becomes exactly the list of those texts |
| Wrappers.MapResult | lib/sequenceserver/blast.rb:179-185 | a loop that pushes one result per element succeeds with one result per element, in order; otherwise the first element that fails gives the error |
| Wrappers.MapResultOk | lib/sequenceserver/blast.rb:179-185 | the loop succeeds exactly when every element succeeds |
| BlastReport.Element | lib/sequenceserver/blast.rb:172 | Ruby's `v[i]` on an Array is its element or `nil`; on a String it is the one-character substring, or `nil` past the end |
| BlastReport.Index | lib/sequenceserver/blast.rb:172 | indexing fails exactly on `nil`, and otherwise gives the element |
| BlastReport.Interpolate | lib/sequenceserver/blast.rb:62 | `"#{v}"` gives a String unchanged, `nil` as the empty text and an Array as its `inspect` form |
| BlastReport.Inspect | lib/sequenceserver/blast.rb:62 | `inspect` puts a String in quotes and an Array in brackets |
| BlastReport.Escaped | lib/sequenceserver/blast.rb:62 | the escaped body is never shorter than the text, and is the text itself when nothing in it needs escaping |
| BlastReport.InspectPlain | lib/sequenceserver/blast.rb:62 | text with nothing to escape is inspected as itself in quotes, and a one-element Array as that element's form in brackets |
| BlastReport.ConvertedPositions | lib/sequenceserver/blast.rb:110-111 | `INTEGER_ARGS` and `FLOAT_ARGS` together are exactly the positions 0 to 13 |
| BlastReport.HspOf | lib/sequenceserver/blast.rb:106-123 | an HSP is built exactly when there are at most 17 arguments and none of the first fourteen is an Array; the three sequence lines are kept as given |
| BlastReport.HspOfTexts | lib/sequenceserver/blast.rb:113-122 | seventeen texts give the HSP whose integer fields are their `to_i` and whose float fields are their `to_f` |
| BlastReport.HspOfFields | lib/sequenceserver/blast.rb:113-122 | texts that read as the fields of an HSP give that HSP |
| BlastReport.HspReadBack | lib/sequenceserver/blast.rb:113-122 | printing an HSP's integers with any printer that `to_i` reads back, and its scores as texts `to_f` reads back, gives the HSP again |
| BlastReport.HspRoundTrip | lib/sequenceserver/blast.rb:113-122 | an HSP printed in decimal reads back as the same HSP |
| BlastReport.HspOfEmpty | lib/sequenceserver/blast.rb:113-122 | with no arguments, the converted fields read as zero and the sequence lines as `nil` |
| BlastReport.HspOfScalars | lib/sequenceserver/blast.rb:113-122 | arguments without Arrays always make an HSP, whose evalue is the `to_f` of position 3 |
| BlastReport.HitOf | lib/sequenceserver/blast.rb:82-88 | the number and length are the `to_i` of positions 0 and 4; `No definition line` becomes the empty definition; there is one HSP per entry of position 5, each built from that entry |
| BlastReport.Evalue | lib/sequenceserver/blast.rb:93-95 | `nil` exactly for a hit without HSPs; otherwise the least HSP evalue, which some HSP has |
| BlastReport.ScoreAdditive | lib/sequenceserver/blast.rb:98-100 | the score of a hit is the sum over any split of its HSPs |
| BlastReport.ScoreBoundsEach | lib/sequenceserver/blast.rb:98-100 | with non-negative bit scores, every HSP's bit score is at most the hit's score |
| BlastReport.SortByEvalue | lib/sequenceserver/blast.rb:69 | `sort_by(&:evalue)` gives a permutation of the hits ordered by evalue; it fails exactly when a hit without HSPs is compared with one that has them |
| BlastReport.QueryHeader | lib/sequenceserver/blast.rb:60-66 | `No definition line` becomes `Query_` and the number; the id is the first whitespace-separated word of the definition and the rest is the meta text; no hits yet |
| BlastReport.QueryHits | lib/sequenceserver/blast.rb:174-187 | a query whose hit slot is the newline marker has no hits; otherwise it has one hit per element, in order, and a sorted view of them |
| BlastReport.HitsByEvalueOrdered | lib/sequenceserver/blast.rb:68-70 | the sorted view of a parsed query is a permutation of its hits ordered by evalue |
| BlastReport.EvalueOnlyHspEvalue | lib/sequenceserver/blast.rb:113-122 | an HSP built from one evalue has that evalue |
| BlastReport.OneHspHitEvalue | lib/sequenceserver/blast.rb:93-95 | a hit with one HSP has that HSP's evalue |
| BlastReport.TwoHitsParse | lib/sequenceserver/blast.rb:179-185 | two hits given with evalues 2 and 1 parse in that order |
| BlastReport.TwoHitsNotOrdered | lib/sequenceserver/blast.rb:68-70 | hits with evalues 2 then 1 can be compared but are not ordered by evalue |
| BlastReport.QueryHitsStayUnsorted | lib/sequenceserver/blast.rb:68-70 | as written, the `hits` member of a query keeps document order, so hits that arrive unsorted stay unsorted; the sorted view is ordered |
| BlastReport.ReportQueries | lib/sequenceserver/blast.rb:170-188 | no queries exactly when there is no iteration; otherwise one query per iteration, in order |
| BlastReport.ParseHit | lib/sequenceserver/blast.rb:180-184 | the loop that pushes one HSP per entry returns what `HitOf` specifies |
| BlastReport.ParseQuery | lib/sequenceserver/blast.rb:171-187 | the query, its hits pushed in order and the sort, as `QueryOf` specifies |
| BlastReport.ParseReport | lib/sequenceserver/blast.rb:159-189 | the nested loops over iterations, hits and HSPs return what `ReportOf` specifies |
| BlastStats.Lookup | lib/sequenceserver/blast.rb:192-209 | `hash[key]` finds nothing exactly for a key that is not stored, and otherwise a value stored under that key |
| BlastStats.LookupFirst | lib/sequenceserver/blast.rb:192-209 | the value found is the one under the key's first entry |
| BlastStats.Put | lib/sequenceserver/blast.rb:198-208 | `hash[key] = value` keeps an existing key in its place and puts a new key last; every entry is the new one or an old one |
| BlastStats.StrandAsWrittenMislabelsPlus | lib/sequenceserver/blast.rb:206-208 | as written, an HSP with query and hit frames 1 and 1 is labelled `(Minus/Minus)`; the corrected label is `(Plus/Plus)` |
| BlastStats.StrandCorrected | lib/sequenceserver/blast.rb:206-208 | as intended, the query part says Plus exactly for a positive query frame and the hit part exactly for a positive hit frame |
| BlastStats.Bracketed | lib/sequenceserver/blast.rb:192-195 | the text between `(` and `)` and nothing else |
| BlastStats.FractionReadsBack | lib/sequenceserver/blast.rb:131-141 | `to_i` reads the count back from the front of `count/length`, and the length from after the slash |
| BlastStats.ScoreReadsBack | lib/sequenceserver/blast.rb:192 | the `Score` text is the bit-score text followed by a bracket from which `to_i` reads the raw score back |
| BlastStats.MantissaStart | lib/sequenceserver/blast.rb:128 | the leftmost position at which `\d*\.` matches, and no match before it |
| BlastStats.ScientificMatch | lib/sequenceserver/blast.rb:128 | in scientific notation, the match covers the whole text: the mantissa before `e` and the signed exponent after it |
| BlastStats.PrettyEvalueScientific | lib/sequenceserver/blast.rb:127-129 | an evalue in scientific notation is shown as the mantissa to three decimals, then ` x 10<sup>`, the exponent and `</sup>` |
| BlastStats.PlainMatch | lib/sequenceserver/blast.rb:128 | in plain notation, the match covers the whole text and has no exponent |
| BlastStats.PrettyEvaluePlain | lib/sequenceserver/blast.rb:127-129 | an evalue in plain notation is shown to three decimals |
| BlastStats.PrettyEvalueWithoutPoint | lib/sequenceserver/blast.rb:127-129 | text without a decimal point is shown unchanged |
| BlastStats.PutFaithful | lib/sequenceserver/blast.rb:197-209 | storing a statistic under its key keeps every entry equal to what the method computes for that key |
| BlastStats.PutNew | lib/sequenceserver/blast.rb:197-209 | storing a key that is not yet present appends it and keeps the table faithful |
| BlastStats.BaseStats | lib/sequenceserver/blast.rb:192-195 | the four common entries in the literal's order, each holding its statistic |
| BlastStats.FilterHspStats | lib/sequenceserver/blast.rb:191-212 | the keys are the four common ones, then the program's extra key (Positives, Query Frame or Hit Frame), then Strand for blastn and tblastx; each entry holds the statistic for its key |
| BlastStats.StatKeysDistinct | lib/sequenceserver/blast.rb:191-212 | no key appears twice, so each statistic is found under its own key |
| BlastValidation.ValidateBlastMethod | lib/sequenceserver/blast.rb:372-376 | passes exactly when the method is one of blastn, blastp, blastx, tblastn and tblastx |
| BlastValidation.ValidateBlastSequences | lib/sequenceserver/blast.rb:378-381 | passes exactly for a non-empty String |
| BlastValidation.Intersection | lib/sequenceserver/blast.rb:385 | `keys & ids` holds exactly the keys that are also ids, and has no duplicates when the keys have none |
| BlastValidation.DatabasesAccepted | lib/sequenceserver/blast.rb:383-388 | the database check passes exactly for a non-empty list of distinct known ids |
| BlastValidation.FirstDisallowed | lib/sequenceserver/blast.rb:399-404 | the first of `-out`, `-html`, `-outfmt`, `-db` and `-query` that the options mention in any case, and none exactly when they mention none of them |
| BlastValidation.OptionsAccepted | lib/sequenceserver/blast.rb:392-405 | options pass exactly when they are absent or blank, or when they are a String of allowed characters that mentions none of the five reserved options in any case |
| BlastValidation.NulOptionsAccepted | lib/sequenceserver/blast.rb:392-394 | options made of a NUL, or of whitespace and a NUL, strip to nothing and pass |
| BlastValidation.AcceptedOptionsAreShellInert | lib/sequenceserver/blast.rb:392-405 | every character of accepted options is an allowed character, whitespace or NUL, so none is a shell metacharacter except the single quote |
| BlastValidation.ValidateBlastParams | lib/sequenceserver/blast.rb:361-366 | passes exactly when all four checks pass; the first failing check, in order, gives the error |
| BlastValidation.ErrorLineCapture | lib/sequenceserver/blast.rb:252 | what `ERROR_LINE` captures on one line stays within that line |
| BlastValidation.FirstCapture | lib/sequenceserver/blast.rb:306-308 | nothing exactly when no line matches `ERROR_LINE`; otherwise the capture of the first line that matches |
| BlastValidation.ClassifyExit | lib/sequenceserver/blast.rb:299-325 | status 1 is an ArgumentError carrying the first captured line, or the whole error text when no line matches; 2, 3, 4 and 255 are RuntimeErrors carrying the status and the whole error text; any other status goes on to read the report |
| BlastValidation.TypicalArgumentError | lib/sequenceserver/blast.rb:252 | from a line `(CArgException::eInvalidArg) Illegal value`, the capture is `Illegal value` |
| AppChecks.FirstMentioned | lib/sequenceserver.rb:372-375 | the first of the reserved options that the text mentions in any case, with none before it; none exactly when it mentions none of them |
| AppChecks.ValidateAdvanced | lib/sequenceserver.rb:370-376 | passes exactly for text of allowed characters that mentions no reserved option in any case; missing or ill-formed text is refused for its characters; otherwise the message names a reserved option the text mentions |
| AppChecks.OutfmtReportedAsOut | lib/sequenceserver.rb:372-374 | text that mentions `-outfmt` is refused with the message for `-out`, which is checked first |
| AppChecks.BeforeSearch | lib/sequenceserver.rb:98-142 | a request without parameters is passed on; a halt is always status 400; the search proceeds exactly when a known method, a sequence, databases and sound advanced options are given |
| AppChecks.UnreadParamsChecked | lib/sequenceserver.rb:99-111 | a request that carries only parameters the filter does not read is not empty, so it halts for want of a method |
| AppChecks.MethodCheckedFirst | lib/sequenceserver.rb:110-112 | a missing or empty method is reported before anything else |
| AppChecks.MissingAdvancedRefused | lib/sequenceserver.rb:130-135 | with no advanced options at all, the request halts with the invalid-characters message |
| AppChecks.BlastOptions | lib/sequenceserver.rb:150-160 | the user's options come first, then exactly ` -task blastn ` for blastn when they do not mention `task` and nothing otherwise, then ` -num_threads ` and the thread count |
| AppChecks.SpaceFields | lib/sequenceserver.rb:180-182 | at least one field, and no field holds whitespace |
| AppChecks.IdsRoundTrip | lib/sequenceserver.rb:180 | ids joined by single spaces, as the retrieval link writes them, are read back by `split(/\s/)` as they were |
| AppChecks.FoundCount | lib/sequenceserver.rb:189-200 | the `>` headers found are the sum of those that each database gave |
| AppChecks.PageOf | lib/sequenceserver.rb:202-229 | the page ends with the sequences in `<pre><code>`, and opens with the error heading exactly when the number of headers differs from the number of ids |
| AppChecks.MismatchWording | lib/sequenceserver.rb:209-211 | the warning says `more` exactly when more sequences came back than were asked for, and `less` otherwise |
| AppChecks.MismatchHeading | lib/sequenceserver.rb:205-206 | the warning opens with the error heading |
| AppChecks.GetSequence | lib/sequenceserver.rb:179-230 | a missing `id` or `db` fails on `split`; otherwise the page that `GetSequenceOf` specifies |
| AppChecks.CollectSequences | lib/sequenceserver.rb:189-198 | the loop over the databases returns what `FoundSequences` specifies |
| AppChecks.WarnAndShow | lib/sequenceserver.rb:202-229 | the page built in `out` is what `PageOf` specifies |
| ResultPage.LclId | lib/sequenceserver/customisation.rb:12 | an id exactly for a sequence id that starts with `lcl` and a bar: the text after it up to the first whitespace |
| ResultPage.SequenceIdOf | lib/sequenceserver.rb:324-325 | `/^>(.+)/` matches exactly when the line starts with `>` and something other than a newline follows; the id is the rest of the first line |
| ResultPage.MoveAnchorAfterId | lib/sequenceserver.rb:282 | when the first line is `>`, at least one character, an `<a` and a later `></a>`, the anchor from the last such `<a` to the last `></a>` of that line moves to its end: the first line becomes `>`, the text before the anchor, the text after it, then the anchor, and the rest of the page is unchanged; otherwise the line is unchanged; either way only the characters' order changes and the leading `>` stays |
| ResultPage.AnchorAfterIdMoved | lib/sequenceserver.rb:282 | swapping the anchor with the text after it only reorders the line and keeps the leading `>` |
| ResultPage.MoveLeadingAnchor | lib/sequenceserver.rb:285 | when the first line starts `><a` and has a `></a>` later, the anchor up to the last `></a>` of that line moves to its end after the remaining text, and the rest of the page is unchanged; otherwise the line is unchanged; either way only the characters' order changes and the leading `>` stays |
| ResultPage.LeadingAnchorMoved | lib/sequenceserver.rb:285 | moving the leading anchor after the rest of the first line only reorders the line |
| ResultPage.HitLength | lib/sequenceserver.rb:288 | the first later line that matches `>lcl` or `Lambda`, with none before it; none exactly when no later line does |
| ResultPage.MinMax | lib/sequenceserver.rb:290 | `minmax` gives nothing exactly for an empty list; otherwise a least and a greatest element of the list |
| ResultPage.HitCoordinates | lib/sequenceserver.rb:287-290 | fails exactly when no later line ends the hit; otherwise the `minmax` of the subject coordinates on the lines up to that one |
| ResultPage.HyperlinkPrecedence | lib/sequenceserver.rb:323-366 | the custom line comes first when a table row matches; otherwise the hit's own link, wrapped in an anchor; otherwise the line unchanged; only the fire-ant row can fail |
| ResultPage.RemoveScript | lib/sequenceserver.rb:273 | a line that starts with the script tag loses it, and any other line is kept |
| ResultPage.QueryName | lib/sequenceserver.rb:296 | a name exactly for a line that starts with `<b>Query=</b> `: the rest of the first line |
| ResultPage.QueryHeader | lib/sequenceserver.rb:297-300 | the query's `<div>` and heading, opened by `</pre></div>` exactly when an earlier query was seen |
| ResultPage.BodyLine | lib/sequenceserver.rb:275-307 | a body line counts a query exactly when it is a query title, sets the alignments latch exactly at a `  Database: ` line, adds the ids of a hit line, and can fail only on a hit line |
| ResultPage.RetrievalText | lib/sequenceserver.rb:311-313 | empty exactly when no id was collected; otherwise a link that names the number of retrievable hits |
| ResultPage.FirstTotal | lib/sequenceserver.rb:252-256 | the first line from the sixteenth on that mentions `total letters`, and none before it |
| ResultPage.BannerIgnored | lib/sequenceserver.rb:243-244 | the loop's state does not depend on the first five lines |
| ResultPage.BannerDropped | lib/sequenceserver.rb:243-244 | the page does not depend on the first five lines |
| ResultPage.ReferenceLines | lib/sequenceserver.rb:246-250 | the reference holds exactly lines 7 to 15 |
| ResultPage.SummaryCapture | lib/sequenceserver.rb:252-256 | the summary holds the lines from the sixteenth up to the first that mentions `total letters`, and its latch is closed exactly once that line has been read |
| ResultPage.LatchClosed | lib/sequenceserver.rb:254 | the summary latch is closed exactly once a `total letters` line has been read |
| ResultPage.SkippedDropped | lib/sequenceserver.rb:258-270 | a body line that starts with `</BODY>`, `</HTML>` or `</PRE>` is dropped |
| ResultPage.QueriesCounted | lib/sequenceserver.rb:296-301 | the query counter is the number of query titles read so far |
| ResultPage.QueryOpensDiv | lib/sequenceserver.rb:296-301 | each query title appends its `<div>`, closing the previous one unless it is the first, and bumps the counter |
| ResultPage.AlignmentsLatch | lib/sequenceserver.rb:302-305 | the alignments latch is set exactly when a `  Database: ` line has been read in the body |
| ResultPage.DatabaseStep | lib/sequenceserver.rb:302-306 | the first `  Database: ` line of the body brings the summary in before it; every later one is copied as it is |
| ResultPage.IdsCollected | lib/sequenceserver.rb:234 | the retrievable ids are those of the hit lines read so far, in order |
| ResultPage.PageShape | lib/sequenceserver.rb:309-320 | the page opens with the title and the retrieval link, which is there exactly when a hit had an `lcl` and a bar id, and closes with the stripped reference lines |
| ResultPage.RaiseStops | lib/sequenceserver.rb:242-308 | once a round of the loop fails, the whole formatting fails |
| ResultPage.App.constructor | lib/sequenceserver.rb:234 | no retrievable id is collected yet |
| ResultPage.App.DefaultLink | lib/sequenceserver/customisation.rb:10-17 | the FASTA link of an `lcl` and a bar id, whose id joins the retrievable ones |
| ResultPage.App.ConstructCustomLine | lib/sequenceserver/customisation.rb:22-102 | `default_link` runs first, so the id joins the retrievable ones whichever row matches; the result is what `CustomLine` gives |
| ResultPage.App.ConstructSequenceHyperlinkLine | lib/sequenceserver.rb:323-366 | the line that `HyperlinkLineOf` specifies, and the id that `default_link` registers |
| ResultPage.App.FormatBodyLine | lib/sequenceserver.rb:275-307 | one kept body line is processed as `BodyLine` specifies, and the retrievable ids follow its ids |
| ResultPage.App.FormatLine | lib/sequenceserver.rb:242-308 | one round of the loop is `Step`, and the retrievable ids follow its ids |
| ResultPage.App.FormatBlastResults | lib/sequenceserver.rb:232-321 | succeeds exactly when `FormatOf` does, with its page and its retrievable ids |
| ResultPage.Step | lib/sequenceserver.rb:242-307 | a round that succeeds counts its line: `line_number` goes up by one, the five skipped lines included |
| ResultPage.Run | lib/sequenceserver.rb:242-308 | after `k` successful rounds, `line_number` is `k` |
| ResultPage.RaiseSticks | lib/sequenceserver.rb:242-308 | once a round of the loop fails, every later round fails too |
| Customisation.DigitsAfter | lib/sequenceserver/customisation.rb:74-93 | a head, a run of digits and a tail match at a position exactly when the head does and the tail follows the longest digit run; the digits are returned |
| Customisation.GenomicName | lib/sequenceserver/customisation.rb:79-93 | a `scaffold` or `C` name followed by a space at the position, trying the alternatives in order |
| Customisation.Leftmost | lib/sequenceserver/customisation.rb:39-44 | the leftmost position where an unanchored pattern matches, and no match before it; none exactly when it matches nowhere |
| Customisation.PbarCdsId | lib/sequenceserver/customisation.rb:25 | the Pbar coding-sequence id starts with `PB` and ends with `-RA`, stays on the first line, and is followed by a space |
| Customisation.SinvGenomicId | lib/sequenceserver/customisation.rb:49 | the fire-ant genomic id is `Si_gnF`, one character, `scaffold` and digits, followed by a space |
| Customisation.SinvTagAt | lib/sequenceserver/customisation.rb:35 | `lcl`, a bar and `SI2.2.0` match at the position, with its dots matching any character |
| Customisation.RuleAt | lib/sequenceserver/customisation.rb:24-93 | a rule exactly when that row's pattern matches, with what it captures |
| Customisation.FirstRule | lib/sequenceserver/customisation.rb:24-99 | the `case` picks the first row whose pattern matches, and none exactly when no row does |
| Customisation.BrowserLink | lib/sequenceserver/customisation.rb:26-93 | the genome-browser link opens with ` [` and the anchor, and ends with the browser name and `]` and a newline |
| Customisation.SinvLinks | lib/sequenceserver/customisation.rb:35-48 | the fire-ant protein row's links: a genome-browser link, then a Uniprot link to the mapped accession |
| Customisation.LocusAt | lib/sequenceserver/customisation.rb:39 | the `locus=` capture starts with `Si_gnF` and is followed by `[` |
| Customisation.UniprotKeyAt | lib/sequenceserver/customisation.rb:43 | the key after `SI2.2.0_` is all digits, possibly none |
| Customisation.Suffix | lib/sequenceserver/customisation.rb:24-93 | fails exactly for the fire-ant protein row when the id lacks a locus or a Uniprot key; otherwise a link text framed by ` [` and `]` |
| Customisation.CustomLine | lib/sequenceserver/customisation.rb:22-102 | `nil` exactly when no row matches; only the fire-ant protein row can fail; otherwise the linked id followed by the row's links |
| Customisation.CoordinatesInLink | lib/sequenceserver/customisation.rb:26-63 | a genomic row, and a Pbar or Lhum coding-sequence row, links the browser to the capture, a colon and the hit's `min..max` |
| Customisation.LinkEndsWithName | lib/sequenceserver/customisation.rb:24-93 | every row but the fire-ant protein row gives the linked id followed by one genome-browser link to that row's name |
| Customisation.CfloName | lib/sequenceserver/customisation.rb:74-78 | the Cflo coding-sequence row links to `CFLO`, the digits and `-RA` |
| Customisation.HsalName | lib/sequenceserver/customisation.rb:84-88 | the Hsal coding-sequence row links to `HSAL`, the digits and `-RA` |
| Customisation.AcepName | lib/sequenceserver/customisation.rb:64-68 | the ACEP row links to `AC` and the digits after `000` when they start with it, and to `ACEP_`, the digits and `-RA` otherwise |
| Customisation.AcepBrowserName | lib/sequenceserver/customisation.rb:66 | removing `EP_000` from a rebuilt ACEP id drops the zeros exactly when the digits begin with them |
| Customisation.SinvLine | lib/sequenceserver/customisation.rb:35-48 | the fire-ant protein row fails exactly when the id lacks a locus or a Uniprot key; otherwise its Uniprot link names the mapped accession, or nothing when the key is not mapped |
| Customisation.RemoveAll | lib/sequenceserver/customisation.rb:66 | `gsub` with a literal pattern and an empty replacement never lengthens the text |
| Customisation.AcepIdDropsZeros | lib/sequenceserver/customisation.rb:66 | `ACEP_000`, digits and `-RA` become `AC`, the digits and `-RA` |
| Customisation.AcepIdKept | lib/sequenceserver/customisation.rb:66 | an ACEP id whose digits do not start with `000` is kept as it is |
| Links.Located | lib/sequenceserver/links.rb:19 | a `%d` coordinate that is `nil` makes the format raise; otherwise the URL is the format with the scaffold, the start and the stop put in at their places |
| Links.LocatedReadsBack | lib/sequenceserver/links.rb:10-24 | both coordinates read back with `to_i` from the filled-in URL: the start from the text after the scaffold's colon, the stop from the text after the separator |
| Links.EnsemblUrl | lib/sequenceserver/links.rb:16-20 | no URL exactly when the species or scaffold is missing or the species is not one of the four; an error exactly when there is no coordinate; otherwise the URL is `URL_FMT` with the species, the scaffold, the start and the stop, in that order |
| Links.HymenopterabaseUrl | lib/sequenceserver/links.rb:43-47 | no URL exactly when the species or scaffold is missing or the species is not in the assembly table; otherwise the URL is `URL_FMT` with the species' assembly, the scaffold, the start and the stop, `..` between the coordinates |
| Links.EnsemblSpeciesInHymenopterabase | lib/sequenceserver/links.rb:11-12 | every Ensembl species is also in the Hymenopterabase assembly table |
| Links.RunEnd | lib/sequenceserver/links.rb:89 | the run of `[^\s\\]` that starts at a position ends at the first whitespace or backslash |
| Links.LastLetterDigit | lib/sequenceserver/links.rb:89 | the last lower-case letter followed by a digit in a range, and none after it |
| Links.ScaffoldAt | lib/sequenceserver/links.rb:89 | a match of the scaffold pattern at a position is a scaffold name; no match means no letter-digit pair in that run |
| Links.ScaffoldShape | lib/sequenceserver/links.rb:89 | the text from the start of a run to a letter and up to 100 digits is a scaffold name |
| Links.Species | lib/sequenceserver/links.rb:159-161 | an error exactly when the hit lies in no database; a species exactly when the database name has at least two `/` parts, and it holds no `/` |
| Links.HitCoords | lib/sequenceserver/links.rb:163-165 | `nil` exactly for a hit without HSPs; otherwise a lower bound of every start, attained, and an upper bound of every end |
| Links.SequenceViewer | lib/sequenceserver/links.rb:58-71 | order 0, and the URL is `get_sequence/?sequence_ids=` with the encoded accession, then `&database_ids=` with the searched databases' ids joined by spaces and encoded |
| Links.DownloadFollowsViewer | lib/sequenceserver/links.rb:73-86 | the FASTA download is the viewer's URL plus `&download=fasta`, with the next order |
| Links.HymenopteraBase | lib/sequenceserver/links.rb:88-99 | a link exactly when the title names a scaffold and the species is in the table; an error exactly when there is no database, or no HSP for a shown hit; the link's URL is what `Hymenopterabase.url` gives for the hit's species, scaffold and coordinates |
| Links.EnsemblLink | lib/sequenceserver/links.rb:101-112 | the same for the four Ensembl species, titled `Ensembl`, with the URL that `Ensembl.url` gives |
| Links.NcbiIdAt | lib/sequenceserver/links.rb:55 | a `gi` number between bars at a position, iff that text is there; the id is a non-empty run of digits |
| Links.WordEnd | lib/sequenceserver/links.rb:56 | the run of word characters that starts at a position ends at the first other character |
| Links.UniprotIdAt | lib/sequenceserver/links.rb:56 | an `sp` accession between bars at a position, iff that text is there; the id is a non-empty run of word characters |
| Links.Ncbi | lib/sequenceserver/links.rb:130-141 | no link exactly when the id holds no `gi` number between bars; an error exactly when there is one and no database was searched; the URL names the first database's type and the encoded id |
| Links.Uniprot | lib/sequenceserver/links.rb:144-155 | no link exactly when the id holds no `sp` accession between bars; the URL is the UniProt page of the encoded accession |
| Links.UniprotSinv | lib/sequenceserver/links.rb:115-127 | a link exactly when the id holds `SI2.2.0_` and the table has its `SINV_` key; the URL is the table's entry |
| Databases.NonEmpty | lib/sequenceserver/databases.rb:73 | `delete_if(&:empty?)` keeps exactly the non-empty parts, in order, and changes nothing when none is empty |
| Databases.Loci | lib/sequenceserver/databases.rb:73 | every locus is non-empty and holds no comma |
| Databases.LociJoin | lib/sequenceserver/databases.rb:73 | loci joined with commas split back into the same loci |
| Databases.LocusParts | lib/sequenceserver/databases.rb:82 | the accession and the coordinates hold no colon, and coordinates come only with an accession |
| Databases.PlainAccession | lib/sequenceserver/databases.rb:80-82 | a locus without a colon is all accession, with no coordinates |
| Databases.AccessionAndCoords | lib/sequenceserver/databases.rb:82 | `accession:coords` is taken apart into both |
| Databases.FirstFound | lib/sequenceserver/databases.rb:87-95 | the answer comes from one of the databases asked, and there is none exactly when no database holds the locus |
| Databases.LaterIgnored | lib/sequenceserver/databases.rb:94 | once a database answers, the databases after it make no difference |
| Databases.EntryFound | lib/sequenceserver/databases.rb:100-102 | a locus no database holds gets the `# ERROR` comment; one that some database holds gets the first such database's sequence |
| Databases.FirstMatchUnique | lib/sequenceserver/databases.rb:63-65 | when exactly one database holds the locus, that database answers |
| Databases.Entries | lib/sequenceserver/databases.rb:79-106 | one entry per locus, in the order asked |
| Databases.RetrieveOf | lib/sequenceserver/databases.rb:66-110 | nothing exactly for `nil` loci; otherwise the entries of the loci joined by newlines |
| Databases.NothingFoundWithoutDatabases | lib/sequenceserver/databases.rb:97-102 | with no database, every locus is reported as not found |
| Databases.NotFounds | lib/sequenceserver/databases.rb:101 | one not-found comment per locus, in order |
| Databases.ValuesOf | lib/sequenceserver/databases.rb:34-36 | the databases stored under the keys, in the order of the keys |
| Databases.ValuesAt | lib/sequenceserver/databases.rb:27 | one answer per id; present exactly for the ids in the hash, and then the stored database |
| Databases.FindIn | lib/sequenceserver/databases.rb:88-95 | the loop over the databases that stops at the first match returns what `FirstFound` specifies |
| Databases.DatabaseCollection.constructor | lib/sequenceserver/databases.rb:15-17 | a new collection is empty |
| Databases.DatabaseCollection.Add | lib/sequenceserver/databases.rb:21-23 | the database is stored under its id; a new id goes to the end of the order, a known one keeps its place |
| Databases.DatabaseCollection.Get | lib/sequenceserver/databases.rb:25-28 | one answer per id, in the order asked; present exactly for stored ids, and then the database stored under that id |
| Databases.DatabaseCollection.Ids | lib/sequenceserver/databases.rb:30-32 | each stored id once, and only those |
| Databases.DatabaseCollection.All | lib/sequenceserver/databases.rb:34-36 | the stored databases in the order of their ids |
| Databases.DatabaseCollection.Clear | lib/sequenceserver/databases.rb:118-120 | afterwards there are no ids and no databases |
| Databases.DatabaseCollection.Retrieve | lib/sequenceserver/databases.rb:66-110 | the nested loops return what `RetrieveOf` specifies for the collection's databases |
| CliOptions.Lookup | lib/sequenceserver/clioptions.rb:68 | `optcode[name]`: a value other than `nil` is the one stored under the key |
| CliOptions.FirstWith | lib/sequenceserver/clioptions.rb:44-49 | the first of the names the options hold (or lack), and none before it |
| CliOptions.Check | lib/sequenceserver/clioptions.rb:41-111 | each kind of constraint holds exactly when the source's lambda does not raise: all required options given, no incompatible one, a listed value, a value at least the threshold, a convertible value; only `>=` and `match` can raise outside the check |
| CliOptions.FormatAsWritten | lib/sequenceserver/clioptions.rb:93-100 | holds exactly for a string that matches; raises `TypeError` for any value that is neither a string nor `nil` |
| CliOptions.FormatCorrected | lib/sequenceserver/clioptions.rb:93-100 | holds for a matching string, and for a Boolean whose text matches |
| CliOptions.FormatCorrectionConservative | lib/sequenceserver/clioptions.rb:93-100 | the correction changes only the outcomes that used to raise, and raises only for values neither string, `nil` nor Boolean |
| CliOptions.SoftMaskingBooleanRaises | lib/sequenceserver/clioptions.rb:93-100 | as written, the format check of `soft_masking` raises on either YAML Boolean |
| CliOptions.SoftMaskingBooleanFailsValidation | lib/sequenceserver/clioptions.rb:288-295 | as written, a request whose only option is `soft_masking: true` or `false` ends in an error instead of a verdict |
| CliOptions.CheckAll | lib/sequenceserver/clioptions.rb:26-30 | an option is sound exactly when each of its constraints holds; otherwise the outcome is that of one of them |
| CliOptions.ValidateFrom | lib/sequenceserver/clioptions.rb:125-133 | from a given option on, valid exactly when each is in the table and sound |
| CliOptions.ValidateOptions | lib/sequenceserver/clioptions.rb:123-137 | valid exactly when every option is in the table and every constraint of each holds |
| CliOptions.ValidityIgnoresOrder | lib/sequenceserver/clioptions.rb:123-137 | the same options in another order are valid or not alike |
| CliOptions.Parse | lib/sequenceserver/clioptions.rb:139-147 | a map parses; `nil` and `false` give no options; any other value, and a syntax error of a class the `rescue` names, is refused as not a map; a syntax error of another class escapes |
| CliOptions.ValidateYaml | lib/sequenceserver/clioptions.rb:123-147 | valid exactly when the text parses and the options are acceptable; a refused document is reported as not a map, and an error `parse` lets through is raised |
| CliOptions.SyntaxErrorOutcome | lib/sequenceserver/clioptions.rb:123-147 | a malformed document is reported as not a map when the parser raises `ArgumentError` or a `::SyntaxError` (Syck, Psych 1.x), and escapes `validate` otherwise (Psych 2.0 and later) |
| CliOptions.OptionTable.constructor | lib/sequenceserver/clioptions.rb:115 | a new table has no options |
| CliOptions.OptionTable.Register | lib/sequenceserver/clioptions.rb:118-121 | the option is added, or replaces the one of the same name |
| CliOptions.OptionTable.Validate | lib/sequenceserver/clioptions.rb:123-137 | the loop that returns at the first unknown or unsound option gives what `ValidateYaml` specifies |
| CliOptions.FirstOptionDecides | lib/sequenceserver/clioptions.rb:125-131 | an unknown or failing first option decides the verdict |
| CliOptions.BannedUnknown | tests/test_clioptions.rb:26 | no banned option is in the table |
| CliOptions.BannedRefused | tests/test_clioptions.rb:25-31 | each banned option alone is refused as not supported |
| CliOptions.CullingExcludesOverhang | tests/test_clioptions.rb:7-10 | `culling_limit` with `best_hit_overhang` is refused as incompatible |
| CliOptions.SubjectLocExcludesGilist | tests/test_clioptions.rb:12-15 | `subject_loc` with `gilist` is refused as incompatible |
| CliOptions.EntrezQueryNeedsRemote | tests/test_clioptions.rb:17-19 | `entrez_query` alone is refused for want of `remote`, with the message that names both |
| CliOptions.EntrezQueryWithRemote | tests/test_clioptions.rb:21-22 | `entrez_query` together with `remote` is valid |
| CliOptions.SoftMaskingBooleanAccepted | lib/sequenceserver/clioptions.rb:288-295 | with the corrected format check, `soft_masking` set to either Boolean is valid |
| CliOptions.DecimalIsNumber | lib/sequenceserver/clioptions.rb:102-111 | a decimal integer without a leading 0 converts to both `Integer` and `Real` |
| CliOptions.LeadingZeroOctal | lib/sequenceserver/clioptions.rb:102-111 | digits after a leading 0 that include an 8 or 9 are refused by `Integer` (octal) and accepted by `Real` |
| CliOptions.HexIsNumber | lib/sequenceserver/clioptions.rb:102-111 | `0x` followed by hexadecimal digits converts to both `Integer` and `Real` |
| CliOptions.ExponentMark | lib/sequenceserver/clioptions.rb:102-111 | the first `e` or `E` of a number, and none before it; none at all when absent |
| NameGenerator.ChompDot | lib/sequenceserver/name_generator.rb:78 | the input unchanged, or the input less one final dot |
| NameGenerator.CleanKeepsMiddle | lib/sequenceserver/name_generator.rb:77-83 | `clean` keeps a middle part of its input: in front it drops only whitespace and one dot, at the end at most one dot |
| NameGenerator.CleanSpace | lib/sequenceserver/name_generator.rb:77-83 | whitespace alone cleans to the empty string |
| NameGenerator.CleanDigits | lib/sequenceserver/name_generator.rb:71 | digits alone come out of `clean` unchanged |
| NameGenerator.Present | lib/sequenceserver/name_generator.rb:60-62 | exactly the keywords the dirty name mentions |
| NameGenerator.Spaced | lib/sequenceserver/name_generator.rb:61 | each keyword followed by one space |
| NameGenerator.KeywordsInOrder | lib/sequenceserver/name_generator.rb:60-62 | the keyword loop yields each mentioned keyword once, with a space, in the order of the list |
| NameGenerator.DigitGroupCleaned | lib/sequenceserver/name_generator.rb:71 | cleaning the digits of a part changes nothing, so each part gives its digits and a dot |
| NameGenerator.DigitGroupsChars | lib/sequenceserver/name_generator.rb:68-72 | the digit groups hold only digits and dots |
| NameGenerator.DigitGroupsCount | lib/sequenceserver/name_generator.rb:68-72 | they hold one dot per dot-separated part |
| NameGenerator.SuffixOf | lib/sequenceserver/name_generator.rb:20 | no suffix exactly when some line of the cleaned name is blank; otherwise ` - ` and the cleaned name |
| NameGenerator.SuffixOfOneLine | lib/sequenceserver/name_generator.rb:20 | a one-line cleaned name gives no suffix exactly when it is all whitespace |
| NameGenerator.OutgroupCountZero | lib/sequenceserver/name_generator.rb:38-42 | no outgroup tag exactly when every description names the family Formicidae |
| NameGenerator.OutgroupsRepeat | lib/sequenceserver/name_generator.rb:38-42 | the loop adds one `[Outgroup] ` per description outside Formicidae |
| NameGenerator.PrefixShape | lib/sequenceserver/name_generator.rb:30-45 | the prefix is the kind tag then the outgroup tags; `genome` and `transcripts` as third-last path part give `[Genome] ` and `[Transcriptome] ` |
| NameGenerator.SpeciesOf | lib/sequenceserver/name_generator.rb:18 | the second-last path part with every underscore turned into a space |
| NameGenerator.TitleOf | lib/sequenceserver/name_generator.rb:17-22 | an error exactly for a path of fewer than two parts; the title starts with prefix and species, and has nothing more exactly when the extracted name has a blank line |
| NameGenerator.EachCompressed | lib/sequenceserver/name_generator.rb:47-55 | the block is applied to each description, in order, and the method itself returns `nil` |
| NameGenerator.TaxIdIgnoresYaml | lib/sequenceserver/name_generator.rb:24-28 | as written, a non-zero `taxid` in a description is never the result |
| NameGenerator.TaxIdCorrected | lib/sequenceserver/name_generator.rb:24-28 | as intended: 0 when no description gives a `taxid`, otherwise the first one given |
| NameGenerator.TaxIdCorrectionConservative | lib/sequenceserver/name_generator.rb:24-28 | the code and the correction agree exactly when the corrected tax id is 0 |
| NameGenerator.Generator.constructor | lib/sequenceserver/name_generator.rb:6-10 | keeps the file name and dirty name, and splits the path on `/` |
| NameGenerator.Generator.Get | lib/sequenceserver/name_generator.rb:12-14 | the title and the tax id 0, or the error of `make_title` |
| NameGenerator.Generator.MakeTitle | lib/sequenceserver/name_generator.rb:17-22 | returns what `TitleOf` specifies |
| NameGenerator.Generator.MakePrefix | lib/sequenceserver/name_generator.rb:30-45 | the loop over the descriptions returns what `PrefixOf` specifies |
| NameGenerator.Generator.AppendOutgroups | lib/sequenceserver/name_generator.rb:38-42 | the loop appends `[Outgroup] ` once per description whose family is not Formicidae, after the kind tag it starts from |
| NameGenerator.Generator.ExtractFromDirty | lib/sequenceserver/name_generator.rb:57-75 | returns what `ExtractOf` specifies |
| NameGenerator.Generator.KeywordSuffix | lib/sequenceserver/name_generator.rb:60-62 | the keyword loop returns what `KeywordPart` specifies |
| NameGenerator.AppendDigitGroups | lib/sequenceserver/name_generator.rb:68-72 | the loop over the parts appends what `DigitGroups` specifies |
| Search.Letters | public/js/search.js:313-315 | the cleaned sequence is no longer than the input and holds only letters other than N and X |
| Search.CountNA | public/js/search.js:322-328 | the count of A, C, G, T and U letters is at most the length |
| Search.SequenceTypeOf | public/js/search.js:312-332 | no guess exactly when fewer than ten informative letters remain; nucleotide exactly when there are ten or more and more than nine tenths of them are A, C, G, T or U; protein otherwise |
| Search.GuessSequenceType | public/js/search.js:312-332 | the counting loop returns what `SequenceTypeOf` specifies |
| Search.NoiseIgnored | public/js/search.js:313-315 | digits, spaces, gaps, N and X inserted anywhere do not change the guess |
| Search.CaseIgnored | public/js/search.js:314-325 | the guess ignores case |
| Search.PureNucleotide | public/js/search.js:318-331 | ten or more letters, all A, C, G, T or U, are guessed nucleotide |
| Search.PureProtein | public/js/search.js:318-331 | ten or more informative letters, none of them a base letter, are guessed protein |
| Search.Chunks | public/js/search.js:285 | `split(/>.*/)` gives at least one chunk, and no chunk holds `>` |
| Search.Headers | public/js/search.js:285 | the matches that the split drops: one fewer than the chunks, each a `>` and the rest of its line |
| Search.ChunksRebuild | public/js/search.js:285 | chunks and headers, interleaved, rebuild the query, so the split loses nothing |
| Search.TypesOf | public/js/search.js:289-290 | one guess per chunk, in order |
| Search.GuessQueryType | public/js/search.js:284-306 | the loop that returns `mixed` at the first disagreement gives what `QueryTypeOf` specifies |
| Search.QueryTypeMeaning | public/js/search.js:284-306 | `mixed` exactly when two chunks were guessed differently; no type exactly when no chunk could be guessed; a type exactly when every guessed chunk has it |
| Search.SingleSequence | public/js/search.js:284-306 | a query without headers is guessed as a single sequence |
| Search.BlastMethods | public/js/search.js:978-1008 | no program for an empty query, and no program offered twice |
| Search.BlastMethodsFit | public/js/search.js:978-1008 | for a non-empty query, the programs offered are exactly those that read the database's alphabet and the query's guessed alphabet: either alphabet without a guess, and none for a mixed query |
| Search.UnknownCoversBoth | public/js/search.js:978-1008 | without a guess, the programs offered are those of the two guesses together |
| Search.IndexIn | public/js/search.js:808 | `indexOf` is -1 exactly for an absent element; otherwise the first position of the element |
| Search.SpliceOne | public/js/search.js:808 | `splice(i, 1)` removes exactly the element at `i` from a non-empty list, the rest kept in order; index -1 removes the last one |
| Search.MoveToFront | public/js/search.js:806-813 | the chosen program comes first, and the list keeps its length |
| Search.MoveToFrontAbsent | public/js/search.js:806-813 | choosing a program the list lacks puts it first and drops the list's last program, since `indexOf` gives -1 |
| Search.MoveToFrontPermutes | public/js/search.js:806-813 | choosing a listed program only reorders the list |
| Search.MoveToFrontKeepsOthers | public/js/search.js:806-813 | the other programs keep their relative order |
| Search.MoveToFrontIdempotent | public/js/search.js:806-813 | choosing the same program twice is the same as choosing it once |
| Search.SearchButton.ChangeAlgorithm | public/js/search.js:806-813 | the list of programs becomes what `MoveToFront` gives |
| Search.CategoriesMeaning | public/js/search.js:509-512 | the categories are strictly increasing, and each is the type of some database |
| Search.OfType | public/js/search.js:519-522 | `_.select` keeps exactly the databases of the category, each exactly as often as given |
| Search.SortSorted | public/js/search.js:511 | `sort` of distinct texts is strictly increasing and keeps the same texts |
| Search.SortByTitleSorted | public/js/search.js:519-525 | `_.sortBy` on the title gives a permutation ordered by title |
| Search.FilterDatabasesMeaning | public/js/search.js:518-527 | a category's listing holds each of its databases as often as given, only databases of that type, ordered by title |
| Search.ToggleTwice | public/js/search.js:532-543 | clicking a database twice leaves the selection as it was |
| Search.ToggleOnly | public/js/search.js:532-543 | a click toggles exactly the clicked database |
| Search.PanelTypeMeaning | public/js/search.js:545 | the panel has no type exactly when nothing is selected |
| Search.DatabasesPanel.constructor | public/js/search.js:556-561 | nothing is selected and the panel has no type |
| Search.DatabasesPanel.SelectUnselect | public/js/search.js:532-551 | the selection toggles the clicked database, and the type is the clicked database's type while anything is selected |
| AlignmentViewer.ProgramOf | public/js/alignment_viewer.js:143-180 | each of the five algorithms the viewer switches on is a program the search form lists, under the same name |
| AlignmentViewer.UnitsMarkTranslation | public/js/alignment_viewer.js:143-180 | a coordinate moves three positions per letter exactly on a side whose nucleotides are compared as protein, and one position otherwise |
| AlignmentViewer.QueryStep | public/js/alignment_viewer.js:143-192 | the query coordinate never stands still, and moves forward exactly on a frame of 0 or more |
| AlignmentViewer.SubjectStep | public/js/alignment_viewer.js:166-204 | the subject coordinate never stands still, and moves forward exactly on a frame of 0 or more |
| AlignmentViewer.NQSeq | public/js/alignment_viewer.js:101-114 | the first query coordinate is `qstart` or `qend`; it is `qend` for every program other than blastn on a reverse query frame, and only then when the two differ |
| AlignmentViewer.NSSeq | public/js/alignment_viewer.js:120-133 | the first subject coordinate is `sstart` or `send`; it is `send` for every program other than blastn on a reverse subject frame, and only then when the two differ |
| AlignmentViewer.LineCount | public/js/alignment_viewer.js:20 | `Math.ceil(length / 60)`: enough lines of 60 columns for the length, and not one more |
| AlignmentViewer.Slice | public/js/alignment_viewer.js:36 | `slice` is never longer than the range asked for |
| AlignmentViewer.FieldsCount | public/js/alignment_viewer.js:37 | `length - split('-').length` is one less than the number of letters |
| AlignmentViewer.Rows | public/js/alignment_viewer.js:31-69 | one displayed line per `Math.ceil(length / 60)` |
| AlignmentViewer.NextStart | public/js/alignment_viewer.js:39 | each line starts one step past the end of the line before |
| AlignmentViewer.RowsChain | public/js/alignment_viewer.js:31-69 | the displayed lines chain: each begins one step past the end of the one before, on both sequences |
| AlignmentViewer.LastEnd | public/js/alignment_viewer.js:31-69 | the last line ends at the first coordinate moved one step for every letter of the aligned sequence but the first |
| AlignmentViewer.RowsCoverQuery | public/js/alignment_viewer.js:32-36 | the lines cut the query into consecutive pieces, so nothing is shown twice or skipped |
| AlignmentViewer.Render | public/js/alignment_viewer.js:18-69 | the coordinate loop gives what `Rows` specifies |
| AlignmentViewer.RenderLine | public/js/alignment_viewer.js:32-62 | one pass of the loop gives line `i` and the running coordinates of line `i + 1` |
| AlignmentViewer.Advance | public/js/alignment_viewer.js:37-39 | a line ends one step per letter after its first from where it starts, and the next line starts one step further |
| AlignmentViewer.FormatCoords | public/js/alignment_viewer.js:257-262 | nothing exactly for a width of 0; a RangeError exactly when the number is two or more characters wider than a non-zero width; otherwise the number with only spaces before it, exactly the width long when it fits |
| AlignmentViewer.Width | public/js/alignment_viewer.js:21-23 | the largest number of characters among the four end coordinates |
| AlignmentViewer.FirstCoordinatesAligned | public/js/alignment_viewer.js:41-58 | the first query and subject coordinates are padded to the common width |
| AlignmentViewer.StatKeys | public/js/alignment_viewer.js:211-251 | the five common keys come first, and every program adds at least one; tblastx falls through to blastp's case |
| AlignmentViewer.ViewerStrand | public/js/alignment_viewer.js:233-235 | `+` on each side exactly for a positive frame, with `/` between them |
| AlignmentViewer.StatsAgreeWithReport | public/js/alignment_viewer.js:211-251 | the viewer adds positives, query frame and hit frame for the same programs as the report; it adds the strand for blastn only, and shows tblastx's strand as a frame pair |
| AlignmentViewer.StrandAgreesWithCorrectedReport | public/js/alignment_viewer.js:233-235 | the viewer's strand agrees, side by side, with the report's corrected strand |
| AlignmentViewer.ViewerKeys | public/js/alignment_viewer.js:220-248 | positives exactly for blastp and tblastx, a query frame exactly for blastx, a hit frame exactly for tblastn, a strand exactly for blastn, and a frame pair exactly for tblastx |
| AlignmentViewer.ReportKeys | lib/sequenceserver/blast.rb:197-209 | the report adds positives exactly for blastp and tblastx, a query frame exactly for blastx, a hit frame exactly for tblastn, and a strand exactly for blastn and tblastx |

## Left out

- Text.ToIOfIntToString: `to_i` and `to_f` are modelled as Ruby defines them, as total conversions: after leading whitespace and an optional sign they read the leading number, and text with no number reads as 0. BLAST is trusted to print well-formed numbers; the code never raises on a malformed one, and the model follows the code.
- BlastReport.HspOf: the integer and float fields are read with those total conversions, so a malformed number in the XML yields 0 rather than an error.
- BlastReport.Evalue: evalues and bit scores are Dafny `real`, not IEEE doubles; rounding, infinities and NaN are not modelled.
- BlastReport.ScoreAdditive: the sum of bit scores is exact over `real`; floating-point rounding of the sum is not modelled.
- BlastReport.Escaped: `inspect` is modelled for the quote, the backslash and the named control escapes; other control characters and non-ASCII escapes are not modelled.
- BlastStats.FilterHspStats: `Float#to_s`, the `'%.3f'` format and the percentage helpers with `round(2)` are the fields of a `Formats` parameter, not computed.
- BlastStats.PrettyEvalueScientific: the choice between the two evalue forms is modelled; the digits that `'%.3e'` and `'%.3f'` print come from the `Formats` parameter.
- ResultPage.App.DefaultLink: the Sinatra `url()` helper and ERB's `url_encode` are parameters of the model (the `Hooks` record), not computed.
- ResultPage.IdsCollected: the `sequenceLink` hook returns a link only; if a user-supplied link resolver also registers ids in the accumulator, the model does not record that. Only `default_link` appends ids here. lib/sequenceserver/sequencehelpers.rb is not part of this model.
- Text.LexLessTotal: the string order compares Unicode scalar values, where JavaScript's `<` compares UTF-16 code units; the two differ only between a character above U+FFFF and one in U+E000..U+FFFF.
- ResultPage.RemoveScript: the script tag is matched as a literal prefix of the line, not through a regular-expression engine.
- ResultPage.QueryName: a `^` anchor is read as the start of the line text. The source's lines carry at most one trailing newline, so a match after an embedded newline is not modelled.
- ResultPage.SkippedDropped: the same reading of `^` as the start of the line text applies to the lines that are dropped.
- AppChecks.GetSequence: the `blastdbcmd` lookup of each database is a function parameter; the process it runs is not modelled.
- Databases.DatabaseCollection.Retrieve: the per-database lookup is a function parameter; database ids are given, and the MD5 digest that makes them is not modelled.
- CliOptions.ValidateYaml: YAML parsing is abstracted to the `Yaml` datatype of the parsed document; a document the parser refuses is the `YSyntaxError` case. Which Ruby and YAML library run the code is not fixed, so the case carries whether the parser's error class is one `rescue ArgumentError, SyntaxError` catches (Syck, Psych 1.x: refused as not a map) or not (Psych 2.0 and later, whose `Psych::SyntaxError` is a `RuntimeError`: the error escapes `validate`). The parser's message is a parameter.
- CliOptions.Check: `Integer()` and `Float()` are modelled by the grammar in `UnsignedIntegerText` and `UnsignedFloatText`: an optional sign, radix prefixes, a leading 0 for octal, single underscores between digits, a fraction and an exponent. Hexadecimal floats with a `p` exponent, an underscore directly after a leading 0 or a radix prefix, and a trailing `.` are not examined against Ruby and may get a different verdict.
- NameGenerator.EachCompressed: the YAML description files and `File.exist?` are abstracted to the list of descriptions found, in extension order.
- Links.UniprotSinv: the SINV accession table loaded from YAML is a map parameter.
- Customisation.SinvLine: the same SINV table is a map parameter here.
- AlignmentViewer.ProgramOf: the algorithm is one of the five BLAST programs; an unknown algorithm, for which the JavaScript switches return `undefined`, is not modelled.
- Search.BlastMethods: `isEmpty` is folded into the empty-query case of `determineBlastMethod`.
- Search.GuessSequenceType: `count > 0.9 * length` is modelled as `10 * count > 9 * length`, which is exact over the integers; JavaScript's floating-point product is not modelled.
- Sinatra routing, configuration loading, logging, `erb` rendering, `Tempfile`, `system()` and the BLAST process are I/O and are not modelled.
- Ox XML parsing is not modelled; the report is built from an already-parsed node tree.
- lib/sequenceserver/options.rb and lib/sequenceserver/database.rb are not part of this model: the first runs `blastp -help` at load time, the second is I/O and MD5.
- React, DOM, jQuery and d3 code, and the JSX that the alignment viewer assembles, are not modelled; only the coordinate arithmetic and the statistics keys are.

## Findings

| source | as written | input that shows it | evidently intended | confidence | as-written member | corrected member |
|---|---|---|---|---|---|---|
| lib/sequenceserver/blast.rb:207-208 | the strand says Plus only for a frame above 1 | a blastn HSP with query frame 1 and hit frame 1 is labelled `(Minus/Minus)` | Plus for every positive frame, as the alignment viewer decides at alignment_viewer.js:233-235 | not executed | BlastStats.StrandAsWrittenMislabelsPlus | BlastStats.StrandCorrected |
| lib/sequenceserver/blast.rb:68-70 | the sorted hits go to the `@hits` variable, while the `hits` member read everywhere else keeps document order | a query whose two hits arrive with evalues 2 and then 1 | the hits of each query read back ordered by evalue | not executed | BlastReport.QueryHitsStayUnsorted | BlastReport.HitsByEvalueOrdered |
| lib/sequenceserver/clioptions.rb:93-100 | the `format` check matches a pattern against the value, which raises for a Boolean | the options `{soft_masking: true}` | `soft_masking: true` or `false` is valid | not executed | CliOptions.SoftMaskingBooleanFailsValidation | CliOptions.SoftMaskingBooleanAccepted |
| lib/sequenceserver/name_generator.rb:24-28 | `each_compressed` returns nil whatever the block gives, so the tax id is always 0 | a description file that gives the tax id 7227 | the tax id of the first description that gives one | not executed | NameGenerator.TaxIdIgnoresYaml | NameGenerator.TaxIdCorrected |
