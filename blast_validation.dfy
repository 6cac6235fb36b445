/**
 * The checks made on a search request before BLAST runs, and the reading of
 * BLAST's exit status afterwards.
 */
module BlastValidation {
  import opened Wrappers
  import opened Text

  /** A request parameter as the web framework hands it over: a string, a list of strings, or absent. */
  datatype Param = PStr(s: string) | PList(items: seq<string>) | PNil

  /** The line break and thirty spaces of indentation inside the two multi-line error messages. */
  const MessageBreak: string := "\n" + "                              "

  /** The five BLAST programs a search may use. */
  const Algorithms: seq<string> := ["blastn", "blastp", "blastx", "tblastn", "tblastx"]

  /** `validate_blast_method`: the algorithm must be one of the five algorithms. */
  function ValidateBlastMethod(algorithm: Param): (r: Result<bool>)
    ensures r.Ok? <==> algorithm.PStr? && algorithm.s in Algorithms
    ensures r.Ok? ==> r.value
  {
    if algorithm.PStr? && algorithm.s in Algorithms then Ok(true)
    else Err("BLAST algorithm should be one of:" + MessageBreak + Join(Algorithms, ", ") + ".")
  }

  /** `validate_blast_sequences`: the query must be a non-empty string. */
  function ValidateBlastSequences(sequences: Param): (r: Result<bool>)
    ensures r.Ok? <==> sequences.PStr? && sequences.s != ""
  {
    if sequences.PStr? && sequences.s != "" then Ok(true)
    else Err("Sequences should be a non-empty string.")
  }

  predicate NoDuplicates(xs: seq<string>)
  {
    forall i, j :: 0 <= i < j < |xs| ==> xs[i] != xs[j]
  }

  /** Ruby's `keys & ids` for distinct keys: the keys that are also ids, in key order. */
  function Intersection(keys: seq<string>, ids: seq<string>): (r: seq<string>)
    ensures forall x :: x in r <==> x in keys && x in ids
    ensures NoDuplicates(keys) ==> NoDuplicates(r)
  {
    if |keys| == 0 then []
    else
      var rest := Intersection(keys[1..], ids);
      if keys[0] in ids then
        assert keys == [keys[0]] + keys[1..];
        [keys[0]] + rest
      else rest
  }

  /**
   * `validate_blast_databases`: a non-empty list whose intersection with the
   * known database ids is as long as the list itself.
   */
  function ValidateBlastDatabases(ids: Param, keys: seq<string>): (r: Result<bool>)
    requires NoDuplicates(keys)
  {
    if ids.PList? && |ids.items| > 0 && |Intersection(keys, ids.items)| == |ids.items| then Ok(true)
    else Err("Database id should be one of:" + MessageBreak + Join(keys, "\n") + ".")
  }

  /** A duplicate-free list has as many elements as its set of elements. */
  lemma {:induction false} DistinctCardinality(xs: seq<string>)
    requires NoDuplicates(xs)
    ensures |set x | x in xs| == |xs|
  {
    if |xs| > 0 {
      var rest := xs[1..];
      assert NoDuplicates(rest) by {
        forall i, j | 0 <= i < j < |rest| ensures rest[i] != rest[j] {
          assert rest[i] == xs[i + 1] && rest[j] == xs[j + 1];
        }
      }
      DistinctCardinality(rest);
      assert xs[0] !in rest by {
        forall i | 0 <= i < |rest| ensures rest[i] != xs[0] {
          assert rest[i] == xs[i + 1];
        }
      }
      assert (set x | x in xs) == (set x | x in rest) + {xs[0]};
    }
  }

  /** Every list has at most as many distinct elements as it has elements, and exactly as many only without duplicates. */
  lemma {:induction false} SetCardinalityBound(xs: seq<string>)
    ensures |set x | x in xs| <= |xs|
    ensures |set x | x in xs| == |xs| ==> NoDuplicates(xs)
  {
    if |xs| > 0 {
      var rest := xs[1..];
      SetCardinalityBound(rest);
      assert (set x | x in xs) == (set x | x in rest) + {xs[0]};
      if xs[0] in rest {
        assert (set x | x in xs) == (set x | x in rest);
      } else if |set x | x in xs| == |xs| {
        assert |set x | x in rest| == |rest|;
        forall i, j | 0 <= i < j < |xs| ensures xs[i] != xs[j] {
          if i == 0 {
            assert xs[j] == rest[j - 1];
          } else {
            assert xs[i] == rest[i - 1] && xs[j] == rest[j - 1];
          }
        }
      }
    }
  }

  /** A subset at least as large as its superset is the whole superset. */
  lemma SubsetOfSameSize(a: set<string>, b: set<string>)
    requires a <= b && |a| >= |b|
    ensures a == b
  {
    if a != b {
      var x :| x in b && x !in a;
      SubsetCardinality(a, b - {x});
    }
  }

  lemma {:induction false} SubsetCardinality(a: set<string>, b: set<string>)
    requires a <= b
    ensures |a| <= |b|
    decreases |a|
  {
    if a != {} {
      var y :| y in a;
      SubsetCardinality(a - {y}, b - {y});
    }
  }

  /** The database check passes exactly for a non-empty list of distinct known ids. */
  lemma DatabasesAccepted(ids: Param, keys: seq<string>)
    requires NoDuplicates(keys)
    ensures ValidateBlastDatabases(ids, keys).Ok? <==>
            ids.PList? && |ids.items| > 0 && NoDuplicates(ids.items) && forall i :: 0 <= i < |ids.items| ==> ids.items[i] in keys
  {
    if ids.PList? && |ids.items| > 0 {
      var xs := ids.items;
      var common := Intersection(keys, xs);
      DistinctCardinality(common);
      assert (set x | x in common) == (set x | x in xs && x in keys);
      SetCardinalityBound(xs);
      if NoDuplicates(xs) && forall i :: 0 <= i < |xs| ==> xs[i] in keys {
        DistinctCardinality(xs);
        assert (set x | x in xs && x in keys) == (set x | x in xs);
      } else if |common| == |xs| {
        var sub := set x | x in xs && x in keys;
        var all := set x | x in xs;
        assert sub <= all;
        assert |sub| == |xs|;
        SubsetOfSameSize(sub, all);
        assert forall i :: 0 <= i < |xs| ==> xs[i] in sub;
      }
    }
  }

  // ---------------------------------------------------------------- advanced options

  /** The BLAST options a user may not pass, checked in this order. */
  const DisallowedOptions: seq<string> := ["-out", "-html", "-outfmt", "-db", "-query"]

  /** The first disallowed option found case-insensitively in `s`. */
  function FirstDisallowed(s: string, k: nat): (r: Option<string>)
    requires k <= |DisallowedOptions|
    ensures r.Some? ==> r.value in DisallowedOptions[k..] && Contains(ToLower(s), r.value)
    ensures r.None? <==> forall i :: k <= i < |DisallowedOptions| ==> !Contains(ToLower(s), DisallowedOptions[i])
    decreases |DisallowedOptions| - k
  {
    if k == |DisallowedOptions| then None
    else if Contains(ToLower(s), DisallowedOptions[k]) then Some(DisallowedOptions[k])
    else FirstDisallowed(s, k + 1)
  }

  /** `validate_blast_options`. */
  function ValidateBlastOptions(options: Param): (r: Result<bool>)
  {
    if options.PNil? || (options.PStr? && Strip(options.s) == "") then Ok(true)
    else if !options.PStr? || !OptionsPatternMatches(options.s) then Err("Invalid characters detected in options.")
    else
      match FirstDisallowed(options.s, 0)
      case Some(o) => Err("Option \"" + o + "\" is prohibited.")
      case None => Ok(true)
  }

  /**
   * Options pass exactly when they are absent, blank, or a string of allowed
   * characters that mentions none of the five reserved options in any case.
   */
  lemma OptionsAccepted(options: Param)
    ensures ValidateBlastOptions(options).Ok? <==>
            options.PNil? || (options.PStr? && Strip(options.s) == "")
            || (options.PStr? && OptionsPatternMatches(options.s)
                && forall i :: 0 <= i < |DisallowedOptions| ==> !Contains(ToLower(options.s), DisallowedOptions[i]))
  {
  }

  /** `strip` drops a trailing NUL, so options of NUL and whitespace count as blank and pass. */
  lemma NulOptionsAccepted()
    ensures ValidateBlastOptions(PStr("\0")).Ok?
    ensures ValidateBlastOptions(PStr(" \0")).Ok?
  {
    StripBlank("\0");
    StripBlank(" \0");
  }

  /** A string that strips to nothing is all whitespace and NUL characters. */
  lemma BlankIsSpace(s: string, i: nat)
    requires Strip(s) == "" && i < |s|
    ensures IsStripped(s[i])
  {
    StripBlank(s);
  }

  /**
   * Every character of accepted options is an allowed option character, or
   * whitespace or NUL in options that strip to nothing, so none is a shell
   * metacharacter but the single quote.
   */
  lemma AcceptedOptionsAreShellInert(options: string, i: nat)
    requires ValidateBlastOptions(PStr(options)).Ok? && i < |options|
    ensures OptionChar(options[i]) || IsStripped(options[i])
    ensures options[i] !in {';', '|', '&', '>', '<', '$', '`', '(', ')', '"', '\\'}
  {
    OptionsAccepted(PStr(options));
    PatternCharacters(options, i);
    ShellInert(options[i]);
  }

  /** Allowed option characters, whitespace and NUL are not shell metacharacters, the single quote aside. */
  lemma ShellInert(c: char)
    requires OptionChar(c) || IsStripped(c)
    ensures c !in {';', '|', '&', '>', '<', '$', '`', '(', ')', '"', '\\'}
  {
  }

  lemma PatternCharacters(s: string, i: nat)
    requires Strip(s) == "" || OptionsPatternMatches(s)
    requires i < |s|
    ensures OptionChar(s[i]) || IsStripped(s[i])
  {
    if Strip(s) == "" {
      BlankIsSpace(s, i);
    } else if !AllOptionChars(s) && i < |s| - 1 {
      assert s[..|s| - 1][i] == s[i];
    }
  }

  /** `validate_blast_params`: the four checks in order; the first failure is reported. */
  function ValidateBlastParams(algorithm: Param, sequence: Param, databases: Param, advanced: Param,
                               keys: seq<string>): (r: Result<bool>)
    requires NoDuplicates(keys)
    ensures r.Ok? <==> ValidateBlastMethod(algorithm).Ok? && ValidateBlastSequences(sequence).Ok?
                       && ValidateBlastDatabases(databases, keys).Ok? && ValidateBlastOptions(advanced).Ok?
  {
    var _ :- ValidateBlastMethod(algorithm);
    var _ :- ValidateBlastSequences(sequence);
    var _ :- ValidateBlastDatabases(databases, keys);
    ValidateBlastOptions(advanced)
  }

  // ---------------------------------------------------------------- exit status

  /** What follows a BLAST run, decided by its exit status. */
  datatype Outcome =
    | ReportResults
    | ArgumentError(message: string)
    | RuntimeError(status: int, message: string)

  /** `)` followed by a whitespace character at `j`. */
  predicate CloseThenSpace(l: string, j: nat)
  {
    j + 1 < |l| && l[j] == ')' && IsSpace(l[j + 1])
  }

  /** The last `j` in `[lo, hi)` with `)` and a whitespace character at `j`: where greedy `.*` stops backtracking. */
  function LastCloseThenSpace(l: string, lo: nat, hi: nat): (r: Option<nat>)
    ensures r.Some? ==> lo <= r.value < hi && CloseThenSpace(l, r.value)
    ensures r.Some? ==> forall j :: r.value < j < hi ==> !CloseThenSpace(l, j)
    ensures r.None? ==> forall j :: lo <= j < hi ==> !CloseThenSpace(l, j)
    decreases hi
  {
    if hi <= lo then None
    else if CloseThenSpace(l, hi - 1) then Some(hi - 1)
    else LastCloseThenSpace(l, lo, hi - 1)
  }

  const CArgException: string := "(CArgException"

  /**
   * The first capture of `/\(CArgException.*\)\s(.*)/` in a line: the match
   * starts at the first `(CArgException`, `.*` cannot cross a newline, and the
   * capture runs from after the last `)` plus whitespace to the end of that line.
   */
  function ErrorLineCapture(l: string): (r: Option<string>)
    ensures r.Some? ==> '\n' !in r.value
  {
    match IndexOf(l, CArgException)
    case None => None
    case Some(i) =>
      var from := i + |CArgException|;
      var e := LineEnd(l, from);
      match LastCloseThenSpace(l, from, e)
      case None => None
      case Some(j) =>
        var c := l[j + 2..LineEnd(l, j + 2)];
        assert forall k :: 0 <= k < |c| ==> c[k] == l[j + 2 + k];
        Some(c)
  }

  /** The first line whose pattern matches supplies the message. */
  function FirstCapture(lines: seq<string>): (r: Option<string>)
    ensures r.None? <==> forall j :: 0 <= j < |lines| ==> ErrorLineCapture(lines[j]).None?
    ensures r.Some? ==> r == ErrorLineCapture(lines[FirstSomeAt(lines, ErrorLineCapture).value])
                        && forall j :: 0 <= j < FirstSomeAt(lines, ErrorLineCapture).value ==> ErrorLineCapture(lines[j]).None?
  {
    match FirstSomeAt(lines, ErrorLineCapture)
    case None => None
    case Some(k) => ErrorLineCapture(lines[k])
  }

  /**
   * The exit status of a run and its standard error, read line by line:
   * 1 is the user's mistake, reported through the first matching line or the
   * whole error text; 2, 3, 4 and 255 are failures; anything else goes on to
   * read the report.
   */
  function ClassifyExit(status: int, stderrLines: seq<string>): (r: Outcome)
    ensures r.ReportResults? <==> status !in {1, 2, 3, 4, 255}
    ensures r.ArgumentError? <==> status == 1
    ensures r.ArgumentError? ==>
      r.message == (if FirstCapture(stderrLines).Some? then FirstCapture(stderrLines).value else Concat(stderrLines))
    ensures r.RuntimeError? ==> r.status == status && r.message == Concat(stderrLines)
  {
    if status == 1 then
      match FirstCapture(stderrLines)
      case Some(m) => ArgumentError(m)
      case None => ArgumentError(Concat(stderrLines))
    else if status in {2, 3, 4, 255} then RuntimeError(status, Concat(stderrLines))
    else ReportResults
  }

  /** BLAST's usual argument complaint yields the text after the exception's closing parenthesis. */
  lemma TypicalArgumentError()
    ensures ErrorLineCapture(CArgException + "::eInvalidArg) " + "Illegal value" + "\n") == Some("Illegal value")
  {
    var tag, msg := "::eInvalidArg) ", "Illegal value";
    var l := CArgException + tag + msg + "\n";
    assert l[0..|CArgException|] == CArgException;
    assert MatchAt(l, CArgException, 0);
    assert IndexOf(l, CArgException) == Some(0);
    var from := |CArgException|;
    assert l[|l| - 1] == '\n';
    assert forall k :: from <= k < |l| - 1 ==> l[k] != '\n';
    assert LineEnd(l, from) == |l| - 1;
    assert l[from + 13] == ')' && l[from + 14] == ' ';
    assert forall j :: from + 13 < j < |l| - 1 ==> l[j] != ')';
    var r := LastCloseThenSpace(l, from, |l| - 1);
    assert CloseThenSpace(l, from + 13);
    assert r.Some?;
    assert !CloseThenSpace(l, r.value) || r.value <= from + 13;
    assert r == Some(from + 13);
    assert LineEnd(l, from + 15) == |l| - 1;
    assert l[from + 15..|l| - 1] == msg;
  }
}
