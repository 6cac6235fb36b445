/**
 * The search form in the browser: guessing whether the pasted query is
 * nucleotide or protein, choosing the BLAST programs that fit the query and
 * the selected databases, the database panel (categories, listing by title,
 * selecting and unselecting) and the search button's algorithm menu.
 */
module Search {
  import opened Wrappers
  import opened Text
  import opened Links

  datatype SeqType = Nucleotide | Protein

  /** What the widget reports for a whole query: `undefined`, a type, or `'mixed'`. */
  datatype QueryType = Unknown | Known(t: SeqType) | Mixed

  function TypeName(t: SeqType): string
  {
    match t
    case Nucleotide => "nucleotide"
    case Protein => "protein"
  }

  // ---------------------------------------------------------------- guessSequenceType

  /** `[A-Z]` under the `i` flag. */
  predicate IsLetter(c: char)
  {
    IsUpper(c) || IsLower(c)
  }

  /** `[NX]` under the `i` flag. */
  predicate IsAmbiguous(c: char)
  {
    c == 'N' || c == 'n' || c == 'X' || c == 'x'
  }

  /** A character both replacements keep. */
  predicate IsInformative(c: char)
  {
    IsLetter(c) && !IsAmbiguous(c)
  }

  /** `[ACGTU]` under the `i` flag. */
  predicate IsPutativeNA(c: char)
  {
    c in "ACGTUacgtu"
  }

  /** The sequence once non-letters and `N`/`X` are removed. */
  function Letters(s: string): (r: string)
    ensures |r| <= |s|
    ensures forall i :: 0 <= i < |r| ==> IsInformative(r[i])
  {
    if s == [] then []
    else if IsInformative(s[0]) then [s[0]] + Letters(s[1..])
    else Letters(s[1..])
  }

  /** The number of putative nucleic-acid letters. */
  function CountNA(s: string): (n: nat)
    ensures n <= |s|
  {
    if s == [] then 0
    else (if IsPutativeNA(s[0]) then 1 else 0) + CountNA(s[1..])
  }

  /**
   * The guess for one sequence: none below ten informative letters, otherwise
   * nucleotide when more than nine tenths of them are A, C, G, T or U.
   */
  function SequenceTypeOf(s: string): (r: Option<SeqType>)
    ensures r.None? <==> |Letters(s)| < 10
    ensures r == Some(Nucleotide) <==> |Letters(s)| >= 10 && 10 * CountNA(Letters(s)) > 9 * |Letters(s)|
  {
    var u := Letters(s);
    if |u| < 10 then None
    else if 10 * CountNA(u) > 9 * |u| then Some(Nucleotide)
    else Some(Protein)
  }

  /** `guessSequenceType`, counting with a loop as the widget does. */
  method GuessSequenceType(sequence: string) returns (r: Option<SeqType>)
    ensures r == SequenceTypeOf(sequence)
  {
    var u := Letters(sequence);
    if |u| < 10 {
      return None;
    }
    var count := 0;
    var i := 0;
    while i < |u|
      invariant 0 <= i <= |u|
      invariant count + CountNA(u[i..]) == CountNA(u)
    {
      assert u[i..] == [u[i]] + u[i + 1..];
      if IsPutativeNA(u[i]) {
        count := count + 1;
      }
      i := i + 1;
    }
    assert u[i..] == [];
    if 10 * count > 9 * |u| {
      r := Some(Nucleotide);
    } else {
      r := Some(Protein);
    }
  }

  lemma {:induction false} LettersAppend(a: string, b: string)
    ensures Letters(a + b) == Letters(a) + Letters(b)
    decreases |a|
  {
    if a != [] {
      assert (a + b)[1..] == a[1..] + b;
      LettersAppend(a[1..], b);
    } else {
      assert a + b == b;
    }
  }

  lemma {:induction false} LettersOfNoise(n: string)
    requires forall i :: 0 <= i < |n| ==> !IsInformative(n[i])
    ensures Letters(n) == []
  {
    if n != [] {
      LettersOfNoise(n[1..]);
    }
  }

  /** Digits, spaces, gaps, `N` and `X` inserted anywhere do not change the guess. */
  lemma NoiseIgnored(a: string, n: string, b: string)
    requires forall i :: 0 <= i < |n| ==> !IsInformative(n[i])
    ensures SequenceTypeOf(a + n + b) == SequenceTypeOf(a + b)
  {
    LettersAppend(a + n, b);
    LettersAppend(a, n);
    LettersAppend(a, b);
    LettersOfNoise(n);
    assert Letters(a + n + b) == Letters(a) + Letters(b);
  }

  lemma {:induction false} LettersToLower(s: string)
    ensures Letters(ToLower(s)) == ToLower(Letters(s))
  {
    if s != [] {
      assert ToLower(s)[1..] == ToLower(s[1..]);
      LettersToLower(s[1..]);
    }
  }

  lemma {:induction false} CountNAToLower(s: string)
    ensures CountNA(ToLower(s)) == CountNA(s)
  {
    if s != [] {
      assert ToLower(s)[1..] == ToLower(s[1..]);
      CountNAToLower(s[1..]);
    }
  }

  /** The guess ignores case. */
  lemma CaseIgnored(s: string)
    ensures SequenceTypeOf(ToLower(s)) == SequenceTypeOf(s)
  {
    LettersToLower(s);
    CountNAToLower(Letters(s));
  }

  lemma {:induction false} AllNA(s: string)
    requires forall i :: 0 <= i < |s| ==> s[i] in "ACGTU"
    ensures Letters(s) == s && CountNA(s) == |s|
  {
    if s != [] {
      AllNA(s[1..]);
    }
  }

  /** Ten or more bases spelled with A, C, G, T, U only are nucleotide. */
  lemma PureNucleotide(s: string)
    requires |s| >= 10
    requires forall i :: 0 <= i < |s| ==> s[i] in "ACGTU"
    ensures SequenceTypeOf(s) == Some(Nucleotide)
  {
    AllNA(s);
  }

  lemma {:induction false} NoNA(s: string)
    requires forall i :: 0 <= i < |s| ==> !IsPutativeNA(s[i])
    ensures CountNA(s) == 0
  {
    if s != [] {
      NoNA(s[1..]);
    }
  }

  /** Ten or more informative letters none of which is a base letter are protein. */
  lemma PureProtein(s: string)
    requires |Letters(s)| >= 10
    requires forall i :: 0 <= i < |s| ==> !IsPutativeNA(s[i])
    ensures SequenceTypeOf(s) == Some(Protein)
  {
    NoNASurvives(s);
    NoNA(Letters(s));
  }

  lemma {:induction false} NoNASurvives(s: string)
    requires forall i :: 0 <= i < |s| ==> !IsPutativeNA(s[i])
    ensures forall i :: 0 <= i < |Letters(s)| ==> !IsPutativeNA(Letters(s)[i])
  {
    if s != [] {
      NoNASurvives(s[1..]);
    }
  }

  // ---------------------------------------------------------------- guessQueryType

  /** JavaScript's line terminators, which `.` does not match. */
  predicate IsLineTerminator(c: char)
  {
    c == '\n' || c == '\r' || c == '\U{2028}' || c == '\U{2029}'
  }

  /** Where `.*` started at `k` stops. */
  function HeaderEnd(q: string, k: nat): (e: nat)
    requires k <= |q|
    ensures k <= e <= |q|
    ensures e < |q| ==> IsLineTerminator(q[e])
    ensures forall j :: k <= j < e ==> !IsLineTerminator(q[j])
    decreases |q| - k
  {
    if k == |q| || IsLineTerminator(q[k]) then k else HeaderEnd(q, k + 1)
  }

  // `query.split(/>.*/)`: the text between header lines.
  function Chunks(q: string): (r: seq<string>)
    ensures |r| >= 1
    ensures forall i :: 0 <= i < |r| ==> '>' !in r[i]
    decreases |q|
  {
    if '>' in q then
      var i := FirstIndexOfChar(q, '>');
      var e := HeaderEnd(q, i);
      [q[..i]] + Chunks(q[e..])
    else [q]
  }

  /** The matches `split` drops: each `>` and the rest of its line. */
  function Headers(q: string): (r: seq<string>)
    ensures |r| == |Chunks(q)| - 1
    ensures forall i :: 0 <= i < |r| ==> |r[i]| >= 1 && r[i][0] == '>'
    ensures forall i, j :: 0 <= i < |r| && 0 <= j < |r[i]| ==> !IsLineTerminator(r[i][j])
    decreases |q|
  {
    if '>' in q then
      var i := FirstIndexOfChar(q, '>');
      var e := HeaderEnd(q, i);
      [q[i..e]] + Headers(q[e..])
    else []
  }

  /** Chunks and the headers between them, in turn. */
  function Weave(chunks: seq<string>, headers: seq<string>): string
    requires |chunks| == |headers| + 1
  {
    if headers == [] then chunks[0]
    else chunks[0] + headers[0] + Weave(chunks[1..], headers[1..])
  }

  /** Nothing is lost by the split: chunks and headers rebuild the query. */
  lemma {:induction false} ChunksRebuild(q: string)
    ensures Weave(Chunks(q), Headers(q)) == q
    decreases |q|
  {
    if '>' in q {
      var i := FirstIndexOfChar(q, '>');
      var e := HeaderEnd(q, i);
      SplitUnfolds(q, i, e);
      ChunksRebuild(q[e..]);
      WeaveCons(q[..i], q[i..e], Chunks(q[e..]), Headers(q[e..]));
      ThreeParts(q, i, e);
    }
  }

  /** The first header splits off the first chunk and itself. */
  lemma SplitUnfolds(q: string, i: nat, e: nat)
    requires '>' in q && i == FirstIndexOfChar(q, '>') && e == HeaderEnd(q, i)
    ensures Chunks(q) == [q[..i]] + Chunks(q[e..])
    ensures Headers(q) == [q[i..e]] + Headers(q[e..])
  {
  }

  lemma ThreeParts(q: string, i: nat, e: nat)
    requires i <= e <= |q|
    ensures q[..i] + q[i..e] + q[e..] == q
  {
  }

  /** One chunk and one header in front of a weave. */
  lemma WeaveCons(chunk: string, header: string, chunks: seq<string>, headers: seq<string>)
    requires |chunks| == |headers| + 1
    ensures Weave([chunk] + chunks, [header] + headers) == chunk + header + Weave(chunks, headers)
  {
    assert ([chunk] + chunks)[1..] == chunks;
    assert ([header] + headers)[1..] == headers;
  }

  /** The guess for each chunk. */
  function TypesOf(chunks: seq<string>): (r: seq<Option<SeqType>>)
    ensures |r| == |chunks|
    ensures forall i :: 0 <= i < |r| ==> r[i] == SequenceTypeOf(chunks[i])
  {
    seq(|chunks|, i requires 0 <= i < |chunks| => SequenceTypeOf(chunks[i]))
  }

  /** The loop of `guessQueryType` from position `i`, having settled on `current`. */
  function TypeFrom(types: seq<Option<SeqType>>, i: nat, current: Option<SeqType>): QueryType
    requires i <= |types|
    decreases |types| - i
  {
    if i == |types| then
      (if current.None? then Unknown else Known(current.value))
    else match types[i]
      case None => TypeFrom(types, i + 1, current)
      case Some(t) =>
        if current.None? then TypeFrom(types, i + 1, Some(t))
        else if t != current.value then Mixed
        else TypeFrom(types, i + 1, current)
  }

  function QueryTypeOf(query: string): QueryType
  {
    TypeFrom(TypesOf(Chunks(query)), 0, None)
  }

  /** `guessQueryType`. */
  method GuessQueryType(query: string) returns (r: QueryType)
    ensures r == QueryTypeOf(query)
  {
    var sequences := Chunks(query);
    var types := TypesOf(sequences);
    var current: Option<SeqType> := None;
    var i := 0;
    while i < |sequences|
      invariant 0 <= i <= |sequences|
      invariant TypeFrom(types, i, current) == TypeFrom(types, 0, None)
    {
      var tmp := GuessSequenceType(sequences[i]);
      if tmp.Some? {
        if current.None? {
          current := tmp;
        } else if tmp != current {
          return Mixed;
        }
      }
      i := i + 1;
    }
    r := if current.None? then Unknown else Known(current.value);
  }

  /** Two sequences were classified differently. */
  predicate Mixes(types: seq<Option<SeqType>>)
  {
    exists a, b :: 0 <= a < |types| && 0 <= b < |types| && types[a].Some? && types[b].Some? && types[a] != types[b]
  }

  /** Some sequence was classified, and every classified one as `t`. */
  predicate AllAre(types: seq<Option<SeqType>>, t: SeqType)
  {
    (exists h :: 0 <= h < |types| && types[h] == Some(t)) &&
    forall h :: 0 <= h < |types| && types[h].Some? ==> types[h] == Some(t)
  }

  lemma {:induction false} TypeFromMeaning(types: seq<Option<SeqType>>, i: nat, current: Option<SeqType>)
    requires i <= |types|
    requires current.None? ==> forall h :: 0 <= h < i ==> types[h].None?
    requires current.Some? ==> exists h :: 0 <= h < i && types[h] == current
    requires current.Some? ==> forall h :: 0 <= h < i && types[h].Some? ==> types[h] == current
    ensures TypeFrom(types, i, current) == Mixed <==> Mixes(types)
    ensures TypeFrom(types, i, current) == Unknown <==> forall h :: 0 <= h < |types| ==> types[h].None?
    ensures forall t :: TypeFrom(types, i, current) == Known(t) <==> AllAre(types, t)
    decreases |types| - i
  {
    if i < |types| {
      match types[i]
      case None =>
        TypeFromMeaning(types, i + 1, current);
      case Some(t) =>
        if current.None? {
          TypeFromMeaning(types, i + 1, Some(t));
        } else if t != current.value {
          var h :| 0 <= h < i && types[h] == current;
          assert types[h].Some? && types[i].Some? && types[h] != types[i];
        } else {
          TypeFromMeaning(types, i + 1, current);
        }
    } else if current.Some? {
      var h :| 0 <= h < i && types[h] == current;
      assert AllAre(types, current.value);
    }
  }

  /**
   * What `guessQueryType` reports: `'mixed'` exactly when two sequences were
   * classified differently, nothing exactly when none could be classified, and
   * a type exactly when every classified sequence has it.
   */
  lemma QueryTypeMeaning(query: string)
    ensures QueryTypeOf(query) == Mixed <==> Mixes(TypesOf(Chunks(query)))
    ensures QueryTypeOf(query) == Unknown <==>
      forall h :: 0 <= h < |Chunks(query)| ==> SequenceTypeOf(Chunks(query)[h]).None?
    ensures forall t :: QueryTypeOf(query) == Known(t) <==> AllAre(TypesOf(Chunks(query)), t)
  {
    TypeFromMeaning(TypesOf(Chunks(query)), 0, None);
  }

  /** A query without headers is guessed as one sequence. */
  lemma SingleSequence(query: string)
    requires '>' !in query
    ensures QueryTypeOf(query) == match SequenceTypeOf(query) { case None => Unknown case Some(t) => Known(t) }
  {
    assert Chunks(query) == [query];
    var types := TypesOf([query]);
    assert types == [SequenceTypeOf(query)];
    assert TypeFrom(types, 0, None) == TypeFrom(types, 1, SequenceTypeOf(query));
  }

  // ---------------------------------------------------------------- determineBlastMethod

  /** The programs the form offers, with the alphabet each reads on each side. */
  datatype Program = Program(name: string, query: SeqType, db: SeqType)

  const Programs: seq<Program> := [
    Program("blastn", Nucleotide, Nucleotide),
    Program("blastp", Protein, Protein),
    Program("blastx", Nucleotide, Protein),
    Program("tblastn", Protein, Nucleotide),
    Program("tblastx", Nucleotide, Nucleotide)
  ]

  /** A program fits a database type and a guessed query type it can read. */
  predicate Fits(p: Program, dbType: string, seqType: QueryType)
  {
    TypeName(p.db) == dbType && (seqType == Unknown || seqType == Known(p.query))
  }

  /** `determineBlastMethod`: the programs, default first, for a non-empty query. */
  function BlastMethods(query: string, dbType: string, seqType: QueryType): (r: seq<string>)
    ensures query == "" ==> r == []
    ensures forall i, j :: 0 <= i < j < |r| ==> r[i] != r[j]
  {
    if query == "" then []
    else if dbType == "protein" then
      match seqType
      case Unknown => ["blastp", "blastx"]
      case Known(Protein) => ["blastp"]
      case Known(Nucleotide) => ["blastx"]
      case Mixed => []
    else if dbType == "nucleotide" then
      match seqType
      case Unknown => ["tblastn", "blastn", "tblastx"]
      case Known(Protein) => ["tblastn"]
      case Known(Nucleotide) => ["blastn", "tblastx"]
      case Mixed => []
    else []
  }

  /** The program names that fit, whatever their order. */
  function FittingNames(dbType: string, seqType: QueryType): set<string>
  {
    set k | 0 <= k < |Programs| && Fits(Programs[k], dbType, seqType) :: Programs[k].name
  }

  /**
   * The buttons offered for a non-empty query are exactly the programs that
   * read the database's alphabet and the query's guessed alphabet (either
   * alphabet when the guess is unknown, none when it is mixed).
   */
  lemma BlastMethodsFit(query: string, dbType: string, seqType: QueryType)
    requires query != ""
    ensures forall name :: name in BlastMethods(query, dbType, seqType) <==> name in FittingNames(dbType, seqType)
  {
    var r := BlastMethods(query, dbType, seqType);
    var f := FittingNames(dbType, seqType);
    forall name | name in f
      ensures name in r
    {
      var k :| 0 <= k < |Programs| && Fits(Programs[k], dbType, seqType) && Programs[k].name == name;
      assert k in {0, 1, 2, 3, 4};
    }
    forall name | name in r
      ensures name in f
    {
      var k := if name == "blastn" then 0 else if name == "blastp" then 1 else if name == "blastx" then 2
        else if name == "tblastn" then 3 else 4;
      assert Programs[k].name == name && Fits(Programs[k], dbType, seqType);
    }
  }

  /** Without a guess, the buttons cover both guesses. */
  lemma UnknownCoversBoth(query: string, dbType: string)
    requires query != ""
    ensures forall name :: name in BlastMethods(query, dbType, Unknown) <==>
      name in BlastMethods(query, dbType, Known(Nucleotide)) || name in BlastMethods(query, dbType, Known(Protein))
  {
  }

  // ---------------------------------------------------------------- changeAlgorithm

  /** `indexOf`: the first position of `m`, or -1. */
  function IndexIn(ms: seq<string>, m: string): (i: int)
    ensures -1 <= i < |ms|
    ensures i == -1 <==> m !in ms
    ensures i >= 0 ==> ms[i] == m && m !in ms[..i]
  {
    if ms == [] then -1
    else if ms[0] == m then 0
    else
      var j := IndexIn(ms[1..], m);
      if j == -1 then -1 else j + 1
  }

  /** `splice(i, 1)`: the element at `i` removed; the index -1 counts from the end and removes the last one. */
  function SpliceOne<T>(ms: seq<T>, i: int): (r: seq<T>)
    requires -1 <= i < |ms|
    ensures |ms| == 0 ==> |r| == 0
    ensures |ms| > 0 ==> |r| == |ms| - 1
    ensures 0 <= i ==> ms == r[..i] + [ms[i]] + r[i..]
    ensures i == -1 && |ms| > 0 ==> ms == r + [ms[|ms| - 1]]
  {
    if |ms| == 0 then []
    else if i == -1 then ms[..|ms| - 1]
    else ms[..i] + ms[i + 1..]
  }

  /**
   * `splice(indexOf(m), 1)` then `unshift(m)`; an absent `m` gives index -1,
   * which makes `splice` remove the last element.
   */
  function MoveToFront(ms: seq<string>, m: string): (r: seq<string>)
    ensures |r| >= 1 && r[0] == m
    ensures |r| == if ms == [] then 1 else |ms|
  {
    [m] + SpliceOne(ms, IndexIn(ms, m))
  }

  /** Choosing a program the menu does not list drops the menu's last program. */
  lemma MoveToFrontAbsent(ms: seq<string>, m: string)
    requires m !in ms && ms != []
    ensures MoveToFront(ms, m) == [m] + ms[..|ms| - 1]
  {
  }

  /** Choosing a listed program only reorders the menu. */
  lemma MoveToFrontPermutes(ms: seq<string>, m: string)
    requires m in ms
    ensures multiset(MoveToFront(ms, m)) == multiset(ms)
  {
    var i := IndexIn(ms, m);
    assert ms == ms[..i] + [m] + ms[i + 1..];
  }

  /** The other programs keep their order. */
  lemma MoveToFrontKeepsOthers(ms: seq<string>, m: string)
    requires m in ms
    ensures MoveToFront(ms, m)[1..] == RemoveFirst(ms, m)
  {
    RemoveFirstAt(ms, m);
  }

  /** The list without its first `m`, defined element by element. */
  function RemoveFirst(ms: seq<string>, m: string): seq<string>
  {
    if ms == [] then []
    else if ms[0] == m then ms[1..]
    else [ms[0]] + RemoveFirst(ms[1..], m)
  }

  lemma {:induction false} RemoveFirstAt(ms: seq<string>, m: string)
    requires m in ms
    ensures RemoveFirst(ms, m) == ms[..IndexIn(ms, m)] + ms[IndexIn(ms, m) + 1..]
  {
    if ms[0] != m {
      assert m in ms[1..];
      RemoveFirstAt(ms[1..], m);
      var j := IndexIn(ms[1..], m);
      assert IndexIn(ms, m) == j + 1;
      assert ms[1..][..j] == ms[1..j + 1];
      assert ms[1..][j + 1..] == ms[j + 2..];
      assert [ms[0]] + ms[1..j + 1] == ms[..j + 1];
    }
  }

  /** Choosing the same program twice is choosing it once. */
  lemma MoveToFrontIdempotent(ms: seq<string>, m: string)
    ensures MoveToFront(MoveToFront(ms, m), m) == MoveToFront(ms, m)
  {
    var r := MoveToFront(ms, m);
    assert IndexIn(r, m) == 0;
    assert SpliceOne(r, 0) == r[1..];
    assert r == [m] + r[1..];
  }

  /** The button's state: the program menu, current choice first. */
  class SearchButton {
    var methods: seq<string>

    constructor (methods: seq<string>)
      ensures this.methods == methods
    {
      this.methods := methods;
    }

    /** `changeAlgorithm`. */
    method ChangeAlgorithm(m: string)
      modifies this
      ensures methods == MoveToFront(old(methods), m)
    {
      var ms := methods;
      var i := IndexIn(ms, m);
      if i >= 0 {
        ms := ms[..i] + ms[i + 1..];
      } else if ms != [] {
        ms := ms[..|ms| - 1];
      }
      methods := [m] + ms;
    }
  }

  // ---------------------------------------------------------------- databases panel

  /** Code-unit order on strings, strict. */
  predicate StrictlySorted(s: seq<string>)
  {
    forall i, j :: 0 <= i < j < |s| ==> LexLess(s[i], s[j])
  }

  function Insert(x: string, s: seq<string>): seq<string>
  {
    if s == [] then [x]
    else if LexLess(x, s[0]) then [x] + s
    else [s[0]] + Insert(x, s[1..])
  }

  lemma {:induction false} InsertSorted(x: string, s: seq<string>)
    requires StrictlySorted(s) && x !in s
    ensures StrictlySorted(Insert(x, s))
    ensures forall y :: y in Insert(x, s) <==> y == x || y in s
    ensures |Insert(x, s)| == |s| + 1
  {
    if s != [] {
      if LexLess(x, s[0]) {
        forall j | 0 <= j < |s|
          ensures LexLess(x, s[j])
        {
          if j > 0 {
            LexLessTransitive(x, s[0], s[j]);
          }
        }
      } else {
        LexLessTotal(x, s[0]);
        InsertSorted(x, s[1..]);
        var r := Insert(x, s[1..]);
        forall j | 0 <= j < |r|
          ensures LexLess(s[0], r[j])
        {
          assert r[j] == x || r[j] in s[1..];
        }
      }
    }
  }

  /** `Array.prototype.sort` on distinct strings. */
  function Sort(s: seq<string>): seq<string>
  {
    if s == [] then [] else Insert(s[|s| - 1], Sort(s[..|s| - 1]))
  }

  lemma {:induction false} SortSorted(s: seq<string>)
    requires forall i, j :: 0 <= i < j < |s| ==> s[i] != s[j]
    ensures StrictlySorted(Sort(s))
    ensures forall y :: y in Sort(s) <==> y in s
    ensures |Sort(s)| == |s|
  {
    if s != [] {
      var init := s[..|s| - 1];
      SortSorted(init);
      assert s[|s| - 1] !in init;
      InsertSorted(s[|s| - 1], Sort(init));
      assert s == init + [s[|s| - 1]];
    }
  }

  function DbTypes(dbs: seq<Database>): (r: seq<string>)
    ensures |r| == |dbs|
    ensures forall i :: 0 <= i < |r| ==> r[i] == dbs[i].dbtype
  {
    seq(|dbs|, i requires 0 <= i < |dbs| => dbs[i].dbtype)
  }

  /** `categories`: `_.uniq` of the types, sorted. */
  function Categories(dbs: seq<Database>): seq<string>
  {
    Sort(Uniq(DbTypes(dbs)))
  }

  /** The categories are each type once, in increasing order. */
  lemma CategoriesMeaning(dbs: seq<Database>)
    ensures StrictlySorted(Categories(dbs))
    ensures forall t :: t in Categories(dbs) <==> exists d :: d in dbs && d.dbtype == t
  {
    SortSorted(Uniq(DbTypes(dbs)));
    forall t | t in Categories(dbs)
      ensures exists d :: d in dbs && d.dbtype == t
    {
      var i :| 0 <= i < |DbTypes(dbs)| && DbTypes(dbs)[i] == t;
      assert dbs[i] in dbs;
    }
    forall d | d in dbs
      ensures d.dbtype in Categories(dbs)
    {
      var i :| 0 <= i < |dbs| && dbs[i] == d;
      assert DbTypes(dbs)[i] == d.dbtype;
    }
  }

  /** `_.select` on the type. */
  function OfType(dbs: seq<Database>, category: string): (r: seq<Database>)
    ensures forall d :: d in r <==> d in dbs && d.dbtype == category
    ensures multiset(r) <= multiset(dbs)
    ensures forall d :: multiset(r)[d] == if d.dbtype == category then multiset(dbs)[d] else 0
  {
    if dbs == [] then []
    else
      var init := OfType(dbs[..|dbs| - 1], category);
      assert dbs == dbs[..|dbs| - 1] + [dbs[|dbs| - 1]];
      if dbs[|dbs| - 1].dbtype == category then init + [dbs[|dbs| - 1]] else init
  }

  predicate SortedByTitle(s: seq<Database>)
  {
    forall i, j :: 0 <= i < j < |s| ==> LexLessEq(s[i].title, s[j].title)
  }

  /** Insert after every element with the same or a smaller title, which keeps the sort stable. */
  function InsertByTitle(d: Database, s: seq<Database>): seq<Database>
  {
    if s == [] then [d]
    else if LexLess(d.title, s[0].title) then [d] + s
    else [s[0]] + InsertByTitle(d, s[1..])
  }

  lemma {:induction false} InsertByTitleSorted(d: Database, s: seq<Database>)
    requires SortedByTitle(s)
    ensures SortedByTitle(InsertByTitle(d, s))
    ensures multiset(InsertByTitle(d, s)) == multiset(s) + multiset{d}
  {
    if s != [] {
      if LexLess(d.title, s[0].title) {
        forall j | 0 <= j < |s|
          ensures LexLessEq(d.title, s[j].title)
        {
          if j > 0 && s[0].title != s[j].title {
            LexLessTransitive(d.title, s[0].title, s[j].title);
          }
        }
        ConsSortedByTitle(d, s);
      } else {
        LexLessTotal(d.title, s[0].title);
        InsertByTitleSorted(d, s[1..]);
        var r := InsertByTitle(d, s[1..]);
        forall j | 0 <= j < |r|
          ensures LexLessEq(s[0].title, r[j].title)
        {
          assert r[j] in multiset(r);
          assert r[j] == d || r[j] in s[1..];
        }
        ConsSortedByTitle(s[0], r);
        assert s == [s[0]] + s[1..];
      }
    }
  }

  lemma ConsSortedByTitle(x: Database, r: seq<Database>)
    requires SortedByTitle(r) && forall j :: 0 <= j < |r| ==> LexLessEq(x.title, r[j].title)
    ensures SortedByTitle([x] + r)
  {
    var s := [x] + r;
    forall i, j | 0 <= i < j < |s|
      ensures LexLessEq(s[i].title, s[j].title)
    {
      if i > 0 {
        assert s[i] == r[i - 1] && s[j] == r[j - 1];
      } else {
        assert s[j] == r[j - 1];
      }
    }
  }

  /** `_.sortBy` on the title. */
  function SortByTitle(s: seq<Database>): seq<Database>
  {
    if s == [] then [] else InsertByTitle(s[|s| - 1], SortByTitle(s[..|s| - 1]))
  }

  lemma {:induction false} SortByTitleSorted(s: seq<Database>)
    ensures SortedByTitle(SortByTitle(s))
    ensures multiset(SortByTitle(s)) == multiset(s)
  {
    if s != [] {
      var init := s[..|s| - 1];
      SortByTitleSorted(init);
      InsertByTitleSorted(s[|s| - 1], SortByTitle(init));
      assert s == init + [s[|s| - 1]];
    }
  }

  /** `filterDatabases`. */
  function FilterDatabases(dbs: seq<Database>, category: string): seq<Database>
  {
    SortByTitle(OfType(dbs, category))
  }

  /** The listing of a category holds its databases, each as often as given, ordered by title. */
  lemma FilterDatabasesMeaning(dbs: seq<Database>, category: string)
    ensures SortedByTitle(FilterDatabases(dbs, category))
    ensures forall d :: d in FilterDatabases(dbs, category) ==> d.dbtype == category
    ensures multiset(FilterDatabases(dbs, category)) == multiset(OfType(dbs, category))
    ensures forall d :: d in dbs && d.dbtype == category ==> d in FilterDatabases(dbs, category)
  {
    SortByTitleSorted(OfType(dbs, category));
    var r := FilterDatabases(dbs, category);
    forall d | d in r
      ensures d.dbtype == category
    {
      assert d in multiset(r);
    }
    forall d | d in dbs && d.dbtype == category
      ensures d in r
    {
      assert d in multiset(OfType(dbs, category));
    }
  }

  function Toggle(selected: set<string>, id: string): set<string>
  {
    if id in selected then selected - {id} else selected + {id}
  }

  /** `selected.size && database.type || ''`. */
  function PanelType(selected: set<string>, dbtype: string): string
  {
    if |selected| > 0 then dbtype else ""
  }

  /** Clicking a database twice leaves the selection as it was. */
  lemma ToggleTwice(selected: set<string>, id: string)
    ensures Toggle(Toggle(selected, id), id) == selected
  {
  }

  /** Clicking toggles exactly the clicked database. */
  lemma ToggleOnly(selected: set<string>, id: string)
    ensures id in Toggle(selected, id) <==> id !in selected
    ensures forall x :: x != id ==> (x in Toggle(selected, id) <==> x in selected)
  {
  }

  /** The panel has a type exactly while something is selected. */
  lemma PanelTypeMeaning(selected: set<string>, dbtype: string)
    requires dbtype != ""
    ensures PanelType(selected, dbtype) == "" <==> selected == {}
  {
  }

  /** The panel's state: the selected database ids and their type. */
  class DatabasesPanel {
    var selected: set<string>
    var dbType: string

    constructor ()
      ensures selected == {} && dbType == ""
    {
      selected := {};
      dbType := "";
    }

    /** `selectUnselect`. */
    method SelectUnselect(db: Database)
      modifies this
      ensures selected == Toggle(old(selected), db.id)
      ensures dbType == PanelType(selected, db.dbtype)
    {
      if db.id in selected {
        selected := selected - {db.id};
      } else {
        selected := selected + {db.id};
      }
      dbType := if |selected| > 0 then db.dbtype else "";
    }
  }
}
