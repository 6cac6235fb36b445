/**
 * The structured BLAST report: Query, Hit and HSP records built by position
 * from the flattened XML tree, the derived Hit aggregates, the per-query sort
 * by evalue and the per-program HSP statistics table.
 */
module BlastReport {
  import opened Wrappers
  import opened Text
  import opened XmlTree

  /** What BLAST writes when a sequence has no definition line. */
  const NoDefinition: string := "No definition line"

  /** The hits slot of an iteration without hits: an array holding one newline. */
  const NoHitsMarker: Value := Arr([Str("\n")])

  // ---------------------------------------------------------------- Ruby conversions on flattened values

  /** Ruby's `array[i]`: nil past the end. */
  function At(items: seq<Value>, i: nat): Value
  {
    if i < |items| then items[i] else Nil
  }

  /** Iterating or indexing a value: only an Array can be iterated. */
  function ItemsOf(v: Value): Result<seq<Value>>
  {
    if v.Arr? then Ok(v.items) else Err("undefined method `each_with_index' or `[]' for a non-Array")
  }

  /** `v.to_i`: a String is read leniently, nil reads as 0, an Array has no `to_i`. */
  function IntOf(v: Value): Result<int>
  {
    match v
    case Str(s) => Ok(ToI(s))
    case Nil => Ok(0)
    case Arr(_) => Err("undefined method `to_i' for Array")
  }

  /** `v.to_f`, as `IntOf`. */
  function RealOf(v: Value): Result<real>
  {
    match v
    case Str(s) => Ok(ToF(s))
    case Nil => Ok(0.0)
    case Arr(_) => Err("undefined method `to_f' for Array")
  }

  /** Ruby's `v[i]` on an Array or a String: the element, or the one-character substring, or nil past the end. */
  function Element(v: Value, i: nat): (r: Value)
    requires !v.Nil?
    ensures v.Arr? ==> r == At(v.items, i)
    ensures v.Str? ==> (r.Str? <==> i < |v.s|) && (r.Str? ==> r.s == [v.s[i]]) && (!r.Str? ==> r.Nil?)
  {
    match v
    case Arr(items) => At(items, i)
    case Str(s) => if i < |s| then Str([s[i]]) else Nil
  }

  /** Ruby's `v[i]` on any value: nil has no `[]`. */
  function Index(v: Value, i: nat): (r: Result<Value>)
    ensures r.Err? <==> v.Nil?
    ensures r.Ok? ==> r.value == Element(v, i)
  {
    if v.Nil? then Err("undefined method `[]' for nil:NilClass") else Ok(Element(v, i))
  }

  /** String interpolation `"#{v}"`: a String as it is, nil as nothing, an Array as its `inspect` form. */
  function Interpolate(v: Value): (r: string)
    ensures v.Str? ==> r == v.s
    ensures v.Nil? ==> r == ""
    ensures v.Arr? ==> r == Inspect(v)
  {
    match v
    case Str(s) => s
    case Nil => ""
    case Arr(_) => Inspect(v)
  }

  /** Ruby's `inspect`: `nil`, a quoted and escaped String, or the elements' forms between brackets, separated by `, `. */
  function Inspect(v: Value): (r: string)
    ensures |r| >= 2
    ensures v.Arr? ==> r[0] == '[' && r[|r| - 1] == ']'
    ensures v.Str? ==> r[0] == '"' && r[|r| - 1] == '"'
    decreases v
  {
    match v
    case Nil => "nil"
    case Str(s) => "\"" + Escaped(s) + "\""
    case Arr(items) => "[" + Join(seq(|items|, i requires 0 <= i < |items| => Inspect(items[i])), ", ") + "]"
  }

  /** The escape `String#inspect` writes for `c`, or `c` itself. */
  function EscapeOf(c: char): (r: string)
    ensures |r| == 1 <==> r == [c]
  {
    match c
    case '"' => "\\\""
    case '\\' => "\\\\"
    case '\n' => "\\n"
    case '\t' => "\\t"
    case '\r' => "\\r"
    case '\U{000C}' => "\\f"
    case '\U{000B}' => "\\v"
    case '\U{0008}' => "\\b"
    case '\U{0007}' => "\\a"
    case '\U{001B}' => "\\e"
    case _ => [c]
  }

  /** The body of `String#inspect`, as far as the named escapes and `#{`, `#$`, `#@` go. */
  function Escaped(s: string): (r: string)
    ensures |r| >= |s|
    ensures (forall i :: 0 <= i < |s| ==> s[i] != '#' && EscapeOf(s[i]) == [s[i]]) ==> r == s
  {
    if s == [] then ""
    else if s[0] == '#' && |s| > 1 && (s[1] == '{' || s[1] == '$' || s[1] == '@') then "\\#" + Escaped(s[1..])
    else EscapeOf(s[0]) + Escaped(s[1..])
  }

  /** Text with nothing to escape is inspected as itself in quotes; a one-element Array as that element's form in brackets. */
  lemma InspectPlain(s: string, v: Value)
    requires forall i :: 0 <= i < |s| ==> s[i] != '#' && EscapeOf(s[i]) == [s[i]]
    ensures Inspect(Str(s)) == "\"" + s + "\""
    ensures Inspect(Arr([v])) == "[" + Inspect(v) + "]"
  {
    var forms := seq(1, i requires 0 <= i < 1 => Inspect([v][i]));
    assert forms == [Inspect(v)];
    assert Join(forms, ", ") == Inspect(v);
  }

  /** The argument list of `HSP.new(*v)`: an Array splats, nil splats to nothing, a String stays one argument. */
  function Splat(v: Value): seq<Value>
  {
    match v
    case Arr(items) => items
    case Nil => []
    case Str(_) => [v]
  }

  // ---------------------------------------------------------------- HSP

  /** High-scoring segment pair: 17 fields by position. */
  datatype Hsp = Hsp(
    number: int, bitScore: real, score: int, evalue: real,
    qstart: int, qend: int, start: int, send: int,
    qframe: int, hframe: int, identity: int, positives: int, gaps: int, len: int,
    qseq: Value, hseq: Value, midline: Value)

  /** The argument positions the initialiser reads with `to_i`, in the order it converts them. */
  const IntegerArgs: seq<nat> := [0, 2, 4, 5, 6, 7, 8, 9, 10, 11, 12, 13]

  /** The argument positions it then reads with `to_f`. */
  const FloatArgs: seq<nat> := [1, 3]

  /** No Array among the arguments at the given positions. */
  predicate NoArrayAt(a: seq<Value>, positions: seq<nat>)
  {
    forall k :: 0 <= k < |positions| ==> !At(a, positions[k]).Arr?
  }

  /** The integer and float positions together are exactly the first fourteen. */
  lemma ConvertedPositions(a: seq<Value>)
    ensures NoArrayAt(a, IntegerArgs) && NoArrayAt(a, FloatArgs) <==> forall k :: 0 <= k < 14 ==> !At(a, k).Arr?
  {
    if NoArrayAt(a, IntegerArgs) && NoArrayAt(a, FloatArgs) {
      forall k | 0 <= k < 14
        ensures !At(a, k).Arr?
      {
        if k == 1 || k == 3 {
          assert FloatArgs[k / 2] == k;
        } else if k == 0 || k == 2 {
          assert IntegerArgs[k / 2] == k;
        } else {
          assert IntegerArgs[k - 2] == k;
        }
      }
    }
  }

  /** `v.to_i` on a value that is not an Array. */
  function ScalarToI(v: Value): int
    requires !v.Arr?
  {
    if v.Str? then ToI(v.s) else 0
  }

  /** `v.to_f` on a value that is not an Array. */
  function ScalarToF(v: Value): real
    requires !v.Arr?
  {
    if v.Str? then ToF(v.s) else 0.0
  }

  /**
   * `HSP.new(*v)`: integer positions through `to_i`, float positions through
   * `to_f`, missing arguments as nil and the three sequence lines unchanged.
   * More than 17 arguments is Struct's size error; an Array at a converted
   * position has no `to_i` or `to_f`. Together the converted positions are the
   * first fourteen.
   */
  function HspOf(v: Value): (r: Result<Hsp>)
    ensures r.Ok? <==> |Splat(v)| <= 17 && forall k :: 0 <= k < 14 ==> !At(Splat(v), k).Arr?
    ensures r.Ok? ==> r.value.qseq == At(Splat(v), 14) && r.value.hseq == At(Splat(v), 15)
                      && r.value.midline == At(Splat(v), 16)
  {
    var a := Splat(v);
    if |a| > 17 then Err("struct size differs")
    else if !NoArrayAt(a, IntegerArgs) then Err("undefined method `to_i' for Array")
    else if !NoArrayAt(a, FloatArgs) then Err("undefined method `to_f' for Array")
    else
      ConvertedPositions(a);
      Ok(Hsp(ScalarToI(At(a, 0)), ScalarToF(At(a, 1)), ScalarToI(At(a, 2)), ScalarToF(At(a, 3)),
             ScalarToI(At(a, 4)), ScalarToI(At(a, 5)), ScalarToI(At(a, 6)), ScalarToI(At(a, 7)),
             ScalarToI(At(a, 8)), ScalarToI(At(a, 9)), ScalarToI(At(a, 10)), ScalarToI(At(a, 11)),
             ScalarToI(At(a, 12)), ScalarToI(At(a, 13)), At(a, 14), At(a, 15), At(a, 16)))
  }

  /**
   * The 17 texts BLAST writes for an HSP whose float fields print as `bitText`
   * and `evalueText` and whose integer fields print through `show`.
   */
  function HspTexts(h: Hsp, bitText: string, evalueText: string, show: int -> string): seq<Value>
  {
    seq(17, k requires 0 <= k < 17 => HspText(h, bitText, evalueText, show, k))
  }

  /** The value at position `k` of `HspTexts`: text at the fourteen converted positions. */
  function HspText(h: Hsp, bitText: string, evalueText: string, show: int -> string, k: nat): Value
    requires k < 17
  {
    if k < 14 then Str(FieldText(h, bitText, evalueText, show, k))
    else if k == 14 then h.qseq
    else if k == 15 then h.hseq
    else h.midline
  }

  /** The printed text of converted position `k`. */
  function FieldText(h: Hsp, bitText: string, evalueText: string, show: int -> string, k: nat): string
    requires k < 14
  {
    if k == 0 then show(h.number)
    else if k == 1 then bitText
    else if k == 2 then show(h.score)
    else if k == 3 then evalueText
    else if k == 4 then show(h.qstart)
    else if k == 5 then show(h.qend)
    else if k == 6 then show(h.start)
    else if k == 7 then show(h.send)
    else if k == 8 then show(h.qframe)
    else if k == 9 then show(h.hframe)
    else if k == 10 then show(h.identity)
    else if k == 11 then show(h.positives)
    else if k == 12 then show(h.gaps)
    else show(h.len)
  }

  /** Seventeen arguments with text at every converted position give an HSP field by field. */
  lemma HspOfTexts(a: seq<Value>)
    requires |a| == 17 && forall k :: 0 <= k < 14 ==> a[k].Str?
    ensures HspOf(Arr(a)) == Ok(Hsp(
      ToI(a[0].s), ToF(a[1].s), ToI(a[2].s), ToF(a[3].s), ToI(a[4].s), ToI(a[5].s), ToI(a[6].s),
      ToI(a[7].s), ToI(a[8].s), ToI(a[9].s), ToI(a[10].s), ToI(a[11].s), ToI(a[12].s), ToI(a[13].s),
      a[14], a[15], a[16]))
  {
    ConvertedPositions(a);
  }

  /** Reading back the fields of an HSP, printed in decimal, gives that HSP. */
  lemma HspRoundTrip(h: Hsp, bitText: string, evalueText: string)
    requires ToF(bitText) == h.bitScore && ToF(evalueText) == h.evalue
    ensures HspOf(Arr(HspTexts(h, bitText, evalueText, IntToString))) == Ok(h)
  {
    forall i: int
      ensures ToI(IntToString(i)) == i
    {
      ToIOfIntToString(i);
    }
    HspReadBack(h, bitText, evalueText, IntToString);
  }

  /** Any printing of the integer fields that `to_i` reads back gives the HSP back. */
  lemma HspReadBack(h: Hsp, bitText: string, evalueText: string, show: int -> string)
    requires forall i :: ToI(show(i)) == i
    requires ToF(bitText) == h.bitScore && ToF(evalueText) == h.evalue
    ensures HspOf(Arr(HspTexts(h, bitText, evalueText, show))) == Ok(h)
  {
    var a := HspTexts(h, bitText, evalueText, show);
    assert forall k :: 0 <= k < 14 ==> a[k].Str?;
    FrontTexts(h, bitText, evalueText, show);
    BackTexts(h, bitText, evalueText, show);
    LinesKept(h, bitText, evalueText, show);
    HspOfFields(a, h);
  }

  /** The front converted positions hold the printed fields and the given score texts. */
  lemma FrontTexts(h: Hsp, bitText: string, evalueText: string, show: int -> string)
    ensures var a := HspTexts(h, bitText, evalueText, show);
            a[0].s == show(h.number) && a[1].s == bitText && a[2].s == show(h.score)
            && a[3].s == evalueText && a[4].s == show(h.qstart) && a[5].s == show(h.qend)
            && a[6].s == show(h.start)
  {
  }

  /** The back converted positions hold the printed fields. */
  lemma BackTexts(h: Hsp, bitText: string, evalueText: string, show: int -> string)
    ensures var a := HspTexts(h, bitText, evalueText, show);
            a[7].s == show(h.send) && a[8].s == show(h.qframe) && a[9].s == show(h.hframe)
            && a[10].s == show(h.identity) && a[11].s == show(h.positives) && a[12].s == show(h.gaps)
            && a[13].s == show(h.len)
  {
  }

  lemma LinesKept(h: Hsp, bitText: string, evalueText: string, show: int -> string)
    ensures var a := HspTexts(h, bitText, evalueText, show);
            a[14] == h.qseq && a[15] == h.hseq && a[16] == h.midline
  {
  }

  /** Texts that read as the fields of `h` give `h`. */
  lemma HspOfFields(a: seq<Value>, h: Hsp)
    requires |a| == 17 && forall k :: 0 <= k < 14 ==> a[k].Str?
    requires ToI(a[0].s) == h.number && ToF(a[1].s) == h.bitScore && ToI(a[2].s) == h.score
             && ToF(a[3].s) == h.evalue && ToI(a[4].s) == h.qstart && ToI(a[5].s) == h.qend
             && ToI(a[6].s) == h.start
    requires ToI(a[7].s) == h.send && ToI(a[8].s) == h.qframe && ToI(a[9].s) == h.hframe
             && ToI(a[10].s) == h.identity && ToI(a[11].s) == h.positives && ToI(a[12].s) == h.gaps
             && ToI(a[13].s) == h.len && a[14] == h.qseq && a[15] == h.hseq && a[16] == h.midline
    ensures HspOf(Arr(a)) == Ok(h)
  {
    HspOfTexts(a);
  }

  /** Missing trailing arguments read as zero and nil. */
  lemma HspOfEmpty()
    ensures HspOf(Nil) == Ok(Hsp(0, 0.0, 0, 0.0, 0, 0, 0, 0, 0, 0, 0, 0, 0, 0, Nil, Nil, Nil))
  {
  }

  // ---------------------------------------------------------------- Hit

  datatype Hit = Hit(number: int, id: Value, def: Value, accession: Value, len: int, hsps: seq<Hsp>)

  /** `Hit.new(hits[0..4], [])` followed by one `HSP.new(*hits[5][k])` per entry of `hits[5]`. */
  function HitOf(v: Value): (r: Result<Hit>)
    ensures r.Ok? ==> v.Arr? && At(v.items, 5).Arr?
    ensures r.Ok? ==> IntOf(At(v.items, 0)) == Ok(r.value.number) && IntOf(At(v.items, 4)) == Ok(r.value.len)
    ensures r.Ok? ==> r.value.def == (if At(v.items, 2) == Str(NoDefinition) then Str("") else At(v.items, 2))
    ensures r.Ok? ==> |r.value.hsps| == |At(v.items, 5).items|
                      && forall k :: 0 <= k < |r.value.hsps| ==> HspOf(At(v.items, 5).items[k]) == Ok(r.value.hsps[k])
  {
    var items :- ItemsOf(v);
    var number :- IntOf(At(items, 0));
    var len :- IntOf(At(items, 4));
    var def := if At(items, 2) == Str(NoDefinition) then Str("") else At(items, 2);
    var hspItems :- ItemsOf(At(items, 5));
    var hsps :- MapResult(hspItems, HspOf);
    Ok(Hit(number, At(items, 1), def, At(items, 3), len, hsps))
  }

  /** `Hit#evalue`: the least HSP evalue, nil without HSPs. */
  function Evalue(hsps: seq<Hsp>): (r: Option<real>)
    ensures r.None? <==> |hsps| == 0
    ensures r.Some? ==> (forall k :: 0 <= k < |hsps| ==> r.value <= hsps[k].evalue)
                        && exists k :: 0 <= k < |hsps| && r.value == hsps[k].evalue
  {
    if |hsps| == 0 then None
    else
      var rest := Evalue(hsps[1..]);
      if rest.Some? && rest.value < hsps[0].evalue then
        assert forall k :: 1 <= k < |hsps| ==> hsps[k] == hsps[1..][k - 1];
        rest
      else
        assert forall k :: 1 <= k < |hsps| ==> hsps[k] == hsps[1..][k - 1];
        Some(hsps[0].evalue)
  }

  /** Sum of the bit scores, added left to right. */
  function SumBitScores(hsps: seq<Hsp>): real
  {
    if |hsps| == 0 then 0.0 else SumBitScores(hsps[..|hsps| - 1]) + hsps[|hsps| - 1].bitScore
  }

  /** `Hit#score`: the sum of the HSP bit scores, nil without HSPs. */
  function Score(hsps: seq<Hsp>): Option<real>
  {
    if |hsps| == 0 then None else Some(SumBitScores(hsps))
  }

  /** The score of a hit splits over any division of its HSPs. */
  lemma {:induction false} ScoreAdditive(a: seq<Hsp>, b: seq<Hsp>)
    requires |a| > 0 && |b| > 0
    ensures Score(a + b).value == Score(a).value + Score(b).value
    decreases |b|
  {
    if |b| > 1 {
      var b' := b[..|b| - 1];
      assert (a + b)[..|a + b| - 1] == a + b';
      ScoreAdditive(a, b');
    } else {
      assert (a + b)[..|a + b| - 1] == a;
      assert (a + b)[|a + b| - 1] == b[0];
      assert b[..0] == [];
      assert SumBitScores(b) == SumBitScores(b[..0]) + b[0].bitScore;
      assert SumBitScores(a + b) == SumBitScores(a) + b[0].bitScore;
    }
  }

  /** Every non-negative bit score is at most the hit's score. */
  lemma {:induction false} ScoreBoundsEach(hsps: seq<Hsp>, k: nat)
    requires k < |hsps|
    requires forall j :: 0 <= j < |hsps| ==> hsps[j].bitScore >= 0.0
    ensures hsps[k].bitScore <= Score(hsps).value
    decreases |hsps|
  {
    var init := hsps[..|hsps| - 1];
    NonNegativeSum(init);
    if k < |hsps| - 1 {
      assert hsps[k] == init[k];
      ScoreBoundsEach(init, k);
    }
  }

  lemma {:induction false} NonNegativeSum(hsps: seq<Hsp>)
    requires forall j :: 0 <= j < |hsps| ==> hsps[j].bitScore >= 0.0
    ensures SumBitScores(hsps) >= 0.0
    decreases |hsps|
  {
    if |hsps| > 0 {
      NonNegativeSum(hsps[..|hsps| - 1]);
    }
  }

  // ---------------------------------------------------------------- sorting hits by evalue

  /** The sort key of a hit; hits without HSPs have no key. */
  function HitEvalue(h: Hit): Option<real>
  {
    Evalue(h.hsps)
  }

  /** Ruby cannot compare nil with a Float: some hit has an evalue and another has none. */
  predicate MixedEvalues(hits: seq<Hit>)
  {
    (exists i :: 0 <= i < |hits| && HitEvalue(hits[i]).None?) && (exists j :: 0 <= j < |hits| && HitEvalue(hits[j]).Some?)
  }

  function Key(h: Hit): real
  {
    HitEvalue(h).GetOr(0.0)
  }

  predicate SortedByKey(hits: seq<Hit>)
  {
    forall i, j :: 0 <= i < j < |hits| ==> Key(hits[i]) <= Key(hits[j])
  }

  /** Ordered by evalue: wherever two hits both have one, the earlier one's is no larger. */
  predicate OrderedByEvalue(hits: seq<Hit>)
  {
    forall i, j :: 0 <= i < j < |hits| && HitEvalue(hits[i]).Some? && HitEvalue(hits[j]).Some? ==>
      HitEvalue(hits[i]).value <= HitEvalue(hits[j]).value
  }

  function InsertByKey(h: Hit, sorted: seq<Hit>): (r: seq<Hit>)
    requires SortedByKey(sorted)
    ensures SortedByKey(r)
    ensures multiset(r) == multiset(sorted) + multiset{h}
  {
    if |sorted| == 0 then [h]
    else if Key(h) <= Key(sorted[0]) then [h] + sorted
    else
      var rest := InsertByKey(h, sorted[1..]);
      HeadBelowRest(h, sorted, rest);
      ConsSortedByKey(sorted[0], rest);
      assert sorted == [sorted[0]] + sorted[1..];
      [sorted[0]] + rest
  }

  lemma HeadBelowRest(h: Hit, sorted: seq<Hit>, rest: seq<Hit>)
    requires SortedByKey(sorted) && |sorted| > 0 && Key(sorted[0]) < Key(h)
    requires multiset(rest) == multiset(sorted[1..]) + multiset{h}
    ensures forall k :: 0 <= k < |rest| ==> Key(sorted[0]) <= Key(rest[k])
  {
    forall k | 0 <= k < |rest|
      ensures Key(sorted[0]) <= Key(rest[k])
    {
      assert rest[k] in multiset(rest);
      if rest[k] != h {
        assert rest[k] in multiset(sorted[1..]);
        var m :| 0 <= m < |sorted[1..]| && sorted[1..][m] == rest[k];
        assert sorted[1..][m] == sorted[m + 1];
      }
    }
  }

  lemma ConsSortedByKey(x: Hit, r: seq<Hit>)
    requires SortedByKey(r) && forall k :: 0 <= k < |r| ==> Key(x) <= Key(r[k])
    ensures SortedByKey([x] + r)
  {
    var s := [x] + r;
    forall i, j | 0 <= i < j < |s|
      ensures Key(s[i]) <= Key(s[j])
    {
      assert s[j] == r[j - 1];
      if i > 0 {
        assert s[i] == r[i - 1];
      }
    }
  }

  function SortByKey(hits: seq<Hit>): (r: seq<Hit>)
    ensures SortedByKey(r)
    ensures multiset(r) == multiset(hits)
  {
    if |hits| == 0 then []
    else
      assert hits == [hits[0]] + hits[1..];
      InsertByKey(hits[0], SortByKey(hits[1..]))
  }

  /**
   * `hits.sort_by(&:evalue)`: a permutation of the hits ordered by evalue, or
   * Ruby's comparison error when a hit without HSPs meets one with HSPs.
   */
  function SortByEvalue(hits: seq<Hit>): (r: Result<seq<Hit>>)
    ensures r.Err? <==> MixedEvalues(hits)
    ensures r.Ok? ==> multiset(r.value) == multiset(hits) && OrderedByEvalue(r.value)
  {
    if MixedEvalues(hits) then Err("comparison of NilClass with Float failed")
    else
      var s := SortByKey(hits);
      assert forall i :: 0 <= i < |s| ==> s[i] in multiset(hits);
      Ok(s)
  }

  // ---------------------------------------------------------------- Query

  /**
   * A query of the search. `hits` is the Struct member, filled in document
   * order; `sortedHits` is the `@hits` variable written by the evalue sort,
   * which the `hits` accessor never reads.
   */
  datatype Query = Query(number: Value, def: string, len: Value, hits: seq<Hit>, stats: Value,
                         id: Option<string>, meta: string, sortedHits: Option<seq<Hit>>)

  /** `Query.new(number, def, len, [], stats)`. */
  function QueryHeader(number: Value, def: Value, len: Value, stats: Value): (r: Result<Query>)
    ensures def.Str? && def != Str(NoDefinition) ==> r.Ok? && r.value.def == def.s
    ensures def == Str(NoDefinition) ==> r.Ok? && r.value.def == "Query_" + Interpolate(number)
    ensures r.Err? <==> !def.Str?
    ensures r.Ok? ==> r.value.hits == [] && r.value.sortedHits.None?
                      && r.value.number == number && r.value.len == len && r.value.stats == stats
    ensures r.Ok? ==> (r.value.id.None? <==> SplitWs(r.value.def) == [])
    ensures r.Ok? && r.value.id.Some? ==> SplitWs(r.value.def) == [r.value.id.value] + SplitWs(r.value.meta)
  {
    var text :- if def == Str(NoDefinition) then
                  Ok("Query_" + Interpolate(number))
                else if def.Str? then Ok(def.s)
                else Err("undefined method `split' for a non-String");
    var words := SplitWs(text);
    if |words| == 0 then Ok(Query(number, text, len, [], stats, None, "", None))
    else
      var meta := Join(words[1..], " ");
      SplitWsTokens(text);
      assert forall i :: 0 <= i < |words[1..]| ==> IsToken(words[1..][i]);
      SplitWsJoin(words[1..]);
      Ok(Query(number, text, len, [], stats, Some(words[0]), meta, None))
  }

  /**
   * One element of the iterations array: a Query and its hits. The slots are
   * read with Ruby's `[]`, so a String where an Array is expected gives
   * characters, and only the iterations over hits and HSPs need an Array.
   */
  function QueryOf(n: Value): (r: Result<Query>)
  {
    if n.Nil? then Err("undefined method `[]' for nil:NilClass")
    else
      var stats :- Index(Element(n, 5), 0);
      var q :- QueryHeader(Element(n, 0), Element(n, 2), Element(n, 3), stats);
      var hitsSlot := Element(n, 4);
      if hitsSlot == NoHitsMarker then Ok(q)
      else
        var hitItems :- ItemsOf(hitsSlot);
        var hits :- MapResult(hitItems, HitOf);
        var sorted :- SortByEvalue(hits);
        Ok(q.(hits := hits, sortedHits := Some(sorted)))
  }

  /** The hits of a query: none for the newline marker, otherwise one per element in order, and a sorted view of them. */
  lemma QueryHits(n: Value)
    requires QueryOf(n).Ok?
    ensures n.Arr?
    ensures At(n.items, 4) == NoHitsMarker ==> QueryOf(n).value.hits == [] && QueryOf(n).value.sortedHits.None?
    ensures At(n.items, 4) != NoHitsMarker ==>
      var q := QueryOf(n).value;
      var slot := At(n.items, 4);
      slot.Arr? && |q.hits| == |slot.items|
      && (forall j :: 0 <= j < |slot.items| ==> HitOf(slot.items[j]) == Ok(q.hits[j]))
      && q.sortedHits.Some? && multiset(q.sortedHits.value) == multiset(q.hits)
      && OrderedByEvalue(q.sortedHits.value)
  {
    var slot := Element(n, 4);
    assert slot.Arr?;
    var q := QueryHeader(Element(n, 0), Element(n, 2), Element(n, 3), Index(Element(n, 5), 0).value).value;
    if slot != NoHitsMarker {
      var hits := MapResult(slot.items, HitOf).value;
      var sorted := SortByEvalue(hits).value;
      assert QueryOf(n).value == q.(hits := hits, sortedHits := Some(sorted));
    }
  }

  /** The hits of a query in evalue order: the sorted view where the sort ran, otherwise the (empty) member. */
  function HitsByEvalue(q: Query): seq<Hit>
  {
    q.sortedHits.GetOr(q.hits)
  }

  /** Read through `HitsByEvalue`, every parsed query lists its hits as a permutation ordered by evalue. */
  lemma HitsByEvalueOrdered(n: Value)
    requires QueryOf(n).Ok?
    ensures var q := QueryOf(n).value;
            OrderedByEvalue(HitsByEvalue(q)) && multiset(HitsByEvalue(q)) == multiset(q.hits)
  {
    QueryHits(n);
  }

  /** An HSP whose only field is its evalue, printed as the integer `e`. */
  function EvalueOnlyHsp(e: int): Value
  {
    Arr([Nil, Nil, Nil, Str(IntToString(e))])
  }

  /** A hit with one such HSP. */
  function OneHspHit(e: int): Value
  {
    Arr([Nil, Nil, Nil, Nil, Nil, Arr([EvalueOnlyHsp(e)])])
  }

  /** An iteration whose two hits come in decreasing evalue order. */
  const TwoHitIteration: Value := Arr([Str("1"), Nil, Str("q"), Nil, Arr([OneHspHit(2), OneHspHit(1)]), Arr([Nil])])

  /** Arguments without Arrays always make an HSP, its evalue read from position 3. */
  lemma HspOfScalars(a: seq<Value>)
    requires |a| <= 17 && forall k :: 0 <= k < |a| ==> !a[k].Arr?
    ensures HspOf(Arr(a)).Ok? && HspOf(Arr(a)).value.evalue == ScalarToF(At(a, 3))
  {
    ConvertedPositions(a);
  }

  lemma EvalueOnlyHspEvalue(e: int)
    ensures HspOf(EvalueOnlyHsp(e)).Ok? && HspOf(EvalueOnlyHsp(e)).value.evalue == e as real
  {
    var a := [Nil, Nil, Nil, Str(IntToString(e))];
    HspOfScalars(a);
    ToFOfIntToString(e);
    assert ScalarToF(At(a, 3)) == ToF(IntToString(e));
  }

  lemma OneHspHitEvalue(e: int)
    ensures HitOf(OneHspHit(e)).Ok? && HitEvalue(HitOf(OneHspHit(e)).value) == Some(e as real)
  {
    EvalueOnlyHspEvalue(e);
    var hsp := HspOf(EvalueOnlyHsp(e)).value;
    MapResultSingle(EvalueOnlyHsp(e), HspOf);
    var hit := HitOf(OneHspHit(e));
    assert hit.Ok? && hit.value.hsps == [hsp];
    assert Evalue([hsp]) == Some(hsp.evalue);
  }

  /** Both hits parse, both have an evalue, and they arrive in decreasing evalue order. */
  lemma TwoHitsParse()
    ensures MapResult([OneHspHit(2), OneHspHit(1)], HitOf).Ok?
    ensures var hits := MapResult([OneHspHit(2), OneHspHit(1)], HitOf).value;
            |hits| == 2 && HitEvalue(hits[0]) == Some(2.0) && HitEvalue(hits[1]) == Some(1.0)
  {
    OneHspHitEvalue(2);
    OneHspHitEvalue(1);
    MapResultOk([OneHspHit(2), OneHspHit(1)], HitOf);
  }

  lemma TwoHitsNotOrdered(hits: seq<Hit>)
    requires |hits| == 2 && HitEvalue(hits[0]) == Some(2.0) && HitEvalue(hits[1]) == Some(1.0)
    ensures !MixedEvalues(hits) && !OrderedByEvalue(hits)
  {
  }

  /** The `hits` member keeps document order, so a query whose hits arrive unsorted reads back unsorted. */
  lemma QueryHitsStayUnsorted()
    ensures QueryOf(TwoHitIteration).Ok?
    ensures !OrderedByEvalue(QueryOf(TwoHitIteration).value.hits)
    ensures OrderedByEvalue(HitsByEvalue(QueryOf(TwoHitIteration).value))
  {
    var items := TwoHitIteration.items;
    var hitItems := [OneHspHit(2), OneHspHit(1)];
    assert At(items, 4) == Arr(hitItems) && At(items, 4) != NoHitsMarker;
    assert QueryHeader(At(items, 0), At(items, 2), At(items, 3), At(At(items, 5).items, 0)).Ok?;
    assert Element(TwoHitIteration, 4) == At(items, 4);
    TwoHitsParse();
    var hits := MapResult(hitItems, HitOf).value;
    TwoHitsNotOrdered(hits);
    assert QueryOf(TwoHitIteration).Ok?;
    QueryHits(TwoHitIteration);
    HitsByEvalueOrdered(TwoHitIteration);
    assert QueryOf(TwoHitIteration).value.hits == hits;
  }

  // ---------------------------------------------------------------- Report

  datatype Report = Report(program: Value, version: Value, querydb: Value, parameters: Value,
                           queries: Option<seq<Query>>)

  /** `Report.new`: fixed positions of the flattened root, then one Query per iteration. */
  function ReportOf(root: Node): (r: Result<Report>)
  {
    if !root.Element? then Err("undefined method `nodes' for String")
    else
      var hashed := NodeToArray(root);
      var iterations :- ItemsOf(At(hashed, 8));
      var queries :- MapResult(iterations, QueryOf);
      Ok(Report(At(hashed, 0), At(hashed, 1), At(hashed, 3), At(hashed, 7),
                if |iterations| == 0 then None else Some(queries)))
  }

  /** The report has one Query per element of the iterations array, in order; none at all when there is no iteration. */
  lemma ReportQueries(root: Node)
    requires ReportOf(root).Ok?
    ensures root.Element? && At(NodeToArray(root), 8).Arr?
    ensures var iterations := At(NodeToArray(root), 8).items;
            var queries := ReportOf(root).value.queries;
            (queries.None? <==> |iterations| == 0)
            && (queries.Some? ==> |queries.value| == |iterations|
                                  && forall i :: 0 <= i < |iterations| ==> QueryOf(iterations[i]) == Ok(queries.value[i]))
  {
  }

  /** The HSPs of a hit, one `HSP.new` per entry of `hits[5]`, pushed in order. */
  method ParseHit(v: Value) returns (r: Result<Hit>)
    ensures r == HitOf(v)
  {
    if !v.Arr? {
      return Err("undefined method `each_with_index' or `[]' for a non-Array");
    }
    var items := v.items;
    var number := IntOf(At(items, 0));
    if number.Err? {
      return Err(number.error);
    }
    var len := IntOf(At(items, 4));
    if len.Err? {
      return Err(len.error);
    }
    var def := if At(items, 2) == Str(NoDefinition) then Str("") else At(items, 2);
    var slot := At(items, 5);
    if !slot.Arr? {
      return Err("undefined method `each_with_index' or `[]' for a non-Array");
    }
    var hsps: seq<Hsp> := [];
    for k := 0 to |slot.items|
      invariant MapResult(slot.items[..k], HspOf) == Ok(hsps)
    {
      var hsp := HspOf(slot.items[k]);
      MapResultStep(slot.items, HspOf, k, hsps);
      if hsp.Err? {
        return Err(hsp.error);
      }
      hsps := hsps + [hsp.value];
    }
    assert slot.items[..|slot.items|] == slot.items;
    r := Ok(Hit(number.value, At(items, 1), def, At(items, 3), len.value, hsps));
  }

  /** One iteration: the Query, then its hits pushed in order, then the sort. */
  method ParseQuery(n: Value) returns (r: Result<Query>)
    ensures r == QueryOf(n)
  {
    if n.Nil? {
      return Err("undefined method `[]' for nil:NilClass");
    }
    var stats := Index(Element(n, 5), 0);
    if stats.Err? {
      return Err(stats.error);
    }
    var header := QueryHeader(Element(n, 0), Element(n, 2), Element(n, 3), stats.value);
    if header.Err? {
      return Err(header.error);
    }
    var hitsSlot := Element(n, 4);
    if hitsSlot == NoHitsMarker {
      return header;
    }
    if !hitsSlot.Arr? {
      return Err("undefined method `each_with_index' or `[]' for a non-Array");
    }
    var hits: seq<Hit> := [];
    for j := 0 to |hitsSlot.items|
      invariant MapResult(hitsSlot.items[..j], HitOf) == Ok(hits)
    {
      var hit := ParseHit(hitsSlot.items[j]);
      MapResultStep(hitsSlot.items, HitOf, j, hits);
      if hit.Err? {
        return Err(hit.error);
      }
      hits := hits + [hit.value];
    }
    assert hitsSlot.items[..|hitsSlot.items|] == hitsSlot.items;
    var sorted := SortByEvalue(hits);
    if sorted.Err? {
      return Err(sorted.error);
    }
    r := Ok(header.value.(hits := hits, sortedHits := Some(sorted.value)));
  }

  /** `Report#initialize` over an already parsed document: the nested loops that push Queries, Hits and HSPs. */
  method ParseReport(root: Node) returns (r: Result<Report>)
    ensures r == ReportOf(root)
  {
    if !root.Element? {
      return Err("undefined method `nodes' for String");
    }
    var hashed := NodeToArray(root);
    var slot := At(hashed, 8);
    if !slot.Arr? {
      return Err("undefined method `each_with_index' or `[]' for a non-Array");
    }
    var queries: seq<Query> := [];
    for i := 0 to |slot.items|
      invariant MapResult(slot.items[..i], QueryOf) == Ok(queries)
    {
      var q := ParseQuery(slot.items[i]);
      MapResultStep(slot.items, QueryOf, i, queries);
      if q.Err? {
        return Err(q.error);
      }
      queries := queries + [q.value];
    }
    assert slot.items[..|slot.items|] == slot.items;
    r := Ok(Report(At(hashed, 0), At(hashed, 1), At(hashed, 3), At(hashed, 7),
                   if |slot.items| == 0 then None else Some(queries)));
  }
}

module BlastStats {
  import opened Wrappers
  import opened Text
  import opened XmlTree
  import opened BlastReport

  /**
   * One statistic of an HSP as `filter_hsp_stats` stores it: the text shown
   * in the report, or the frame number itself for the frame keys.
   */
  datatype Stat = Shown(s: string) | Number(n: int)

  /**
   * The float formatting the statistics rely on, taken as given: Float#to_s,
   * `'%.3f' % text`, and the rounded percentage that
   * `(count * 100.0 / length).round(2).to_s` prints.
   */
  datatype Formats = Formats(floatText: real -> string, fixed3: string -> string, percent: (int, int) -> string)

  type Stats = seq<(string, Stat)>

  function Keys(stats: Stats): (r: seq<string>)
    ensures |r| == |stats| && forall i :: 0 <= i < |stats| ==> r[i] == stats[i].0
  {
    seq(|stats|, i requires 0 <= i < |stats| => stats[i].0)
  }

  /** The value stored under `key`, as Ruby's `hash[key]`. */
  function Lookup(stats: Stats, key: string): (r: Option<Stat>)
    ensures r.None? <==> key !in Keys(stats)
    ensures r.Some? ==> (key, r.value) in stats
  {
    if |stats| == 0 then None
    else if stats[0].0 == key then Some(stats[0].1)
    else
      var r := Lookup(stats[1..], key);
      assert Keys(stats) == [stats[0].0] + Keys(stats[1..]);
      r
  }

  /** The value found is the one under the key's first occurrence. */
  lemma {:induction false} LookupFirst(stats: Stats, key: string, i: nat)
    requires i < |stats| && stats[i].0 == key
    requires forall j :: 0 <= j < i ==> stats[j].0 != key
    ensures Lookup(stats, key) == Some(stats[i].1)
  {
    if i > 0 {
      LookupFirst(stats[1..], key, i - 1);
    }
  }

  /** Ruby's `hash[key] = value`: an existing key keeps its place, a new one goes last. */
  function Put(stats: Stats, key: string, value: Stat): (r: Stats)
    ensures key in Keys(stats) ==> Keys(r) == Keys(stats)
    ensures key !in Keys(stats) ==> Keys(r) == Keys(stats) + [key]
    ensures forall i :: 0 <= i < |r| ==> r[i] == (key, value) || r[i] in stats
  {
    if |stats| == 0 then [(key, value)]
    else if stats[0].0 == key then
      var r := [(key, value)] + stats[1..];
      assert Keys(r) == Keys(stats);
      r
    else
      var rest := Put(stats[1..], key, value);
      KeysCons(stats);
      KeysCons([stats[0]] + rest);
      assert ([stats[0]] + rest)[1..] == rest;
      [stats[0]] + rest
  }

  lemma KeysCons(stats: Stats)
    requires |stats| > 0
    ensures Keys(stats) == [stats[0].0] + Keys(stats[1..])
  {
  }

  /** The strand label: Plus for a frame the test accepts, Minus otherwise. */
  function StrandLabel(queryPlus: bool, hitPlus: bool): string
  {
    (if queryPlus then "(Plus" else "(Minus") + (if hitPlus then "/Plus)" else "/Minus)")
  }

  /** The strand as the report computes it: a frame counts as Plus only above 1. */
  function StrandAsWritten(h: Hsp): string
  {
    StrandLabel(h.qframe > 1, h.hframe > 1)
  }

  /** The strand with Plus for every positive frame, as the alignment viewer decides it. */
  function StrandCorrected(h: Hsp): (r: string)
    ensures StartsWithPlus(r) <==> h.qframe > 0
    ensures EndsWithPlus(r) <==> h.hframe > 0
  {
    var q := if h.qframe > 0 then "(Plus" else "(Minus";
    var t := if h.hframe > 0 then "/Plus)" else "/Minus)";
    assert (q + t)[..5] == q[..5];
    assert (q + t)[|q + t| - 6..] == t[|t| - 6..];
    assert h.qframe <= 0 ==> (q + t)[1] == 'M';
    assert h.hframe <= 0 ==> (q + t)[|q + t| - 6] == 'M';
    q + t
  }

  predicate StartsWithPlus(s: string)
  {
    |s| >= 5 && s[..5] == "(Plus"
  }

  predicate EndsWithPlus(s: string)
  {
    |s| >= 6 && s[|s| - 6..] == "/Plus)"
  }

  /** A blastn HSP on the plus strand of both sequences reports frames 1 and 1, and is labelled Minus/Minus. */
  lemma StrandAsWrittenMislabelsPlus(h: Hsp)
    requires h.qframe == 1 && h.hframe == 1
    ensures StrandAsWritten(h) == "(Minus/Minus)"
    ensures StrandCorrected(h) == "(Plus/Plus)"
  {
  }

  /** The keys `filter_hsp_stats` produces for a program, in insertion order. */
  function StatKeys(program: Value): seq<string>
  {
    BaseKeys + FrameKeys(program) + StrandKeys(program)
  }

  const BaseKeys: seq<string> := ["Score", "Expect", "Identities", "Gaps"]

  /** The key the program's `case` adds after the four common ones. */
  function FrameKeys(program: Value): seq<string>
  {
    if program == Str("blastp") || program == Str("tblastx") then ["Positives"]
    else if program == Str("blastx") then ["Query Frame"]
    else if program == Str("tblastn") then ["Hit Frame"]
    else []
  }

  /** The strand key, last, for the nucleotide-against-nucleotide programs. */
  function StrandKeys(program: Value): seq<string>
  {
    if program == Str("blastn") || program == Str("tblastx") then ["Strand"] else []
  }

  // ---------------------------------------------------------------- the texts

  /** `"(" + s + ")"`, as the statistics write the second number after the first. */
  function Bracketed(s: string): (r: string)
    ensures |r| == |s| + 2 && r[0] == '(' && r[|r| - 1] == ')' && r[1..|r| - 1] == s
  {
    "(" + s + ")"
  }

  /** A count over the alignment length and its printed percentage: `identity_fraction + "(" + identity_percentage + "%)"`. */
  function Fraction(count: int, length: int, percent: string): string
  {
    IntToString(count) + "/" + IntToString(length) + Bracketed(percent + "%")
  }

  /** `to_i` reads the count back from the front of a fraction text, and the length from after the slash. */
  lemma FractionReadsBack(count: int, length: int, percent: string)
    ensures ToI(Fraction(count, length, percent)) == count
    ensures Fraction(count, length, percent)[|IntToString(count)|] == '/'
    ensures ToI(Fraction(count, length, percent)[|IntToString(count)| + 1..]) == length
  {
    var tail := Bracketed(percent + "%");
    FractionShape(count, length, percent);
    ToIOfIntToStringThen(count, "/" + IntToString(length) + tail);
    ToIOfIntToStringThen(length, tail);
  }

  /** A fraction text is the printed count, a slash, and the printed length with the percentage after it. */
  lemma FractionShape(count: int, length: int, percent: string)
    ensures Fraction(count, length, percent) == IntToString(count) + ("/" + IntToString(length) + Bracketed(percent + "%"))
    ensures Fraction(count, length, percent)[|IntToString(count)|] == '/'
    ensures Fraction(count, length, percent)[|IntToString(count)| + 1..] == IntToString(length) + Bracketed(percent + "%")
  {
    SlashSplit(IntToString(count), IntToString(length), Bracketed(percent + "%"));
  }

  lemma SlashSplit(a: string, b: string, c: string)
    ensures a + "/" + b + c == a + ("/" + b + c)
    ensures (a + "/" + b + c)[|a|] == '/'
    ensures (a + "/" + b + c)[|a| + 1..] == b + c
  {
    var t := a + "/" + b + c;
    assert t == a + ("/" + b + c);
    assert t[|a| + 1..] == b + c;
  }

  /** The printed bit score, then the raw score in brackets. */
  function ScoreText(bitText: string, score: int): string
  {
    bitText + Bracketed(IntToString(score))
  }

  /** The score text is the printed bit score, then a bracketed text from which `to_i` reads the raw score back. */
  lemma ScoreReadsBack(bitText: string, score: int)
    ensures var t := ScoreText(bitText, score);
      t[..|bitText|] == bitText && t[|bitText|] == '(' && t[|t| - 1] == ')' &&
      ToI(t[|bitText| + 1..]) == score
  {
    var b := Bracketed(IntToString(score));
    var t := ScoreText(bitText, score);
    var k := |bitText|;
    assert t[k..] == b;
    assert t[k + 1..] == b[1..] == IntToString(score) + ")";
    ToIOfIntToStringThen(score, ")");
  }

  /** `s[i..]` starts with `\d*\.`: a run of digits, then a decimal point. */
  predicate PointAfterDigits(s: string, i: nat)
    requires i <= |s|
  {
    DigitsEnd(s, i) < |s| && s[DigitsEnd(s, i)] == '.'
  }

  /** The leftmost position from `i` at which `\d*\.` matches. */
  function MantissaStart(s: string, i: nat): (r: Option<nat>)
    requires i <= |s|
    ensures r.Some? ==> i <= r.value <= |s| && PointAfterDigits(s, r.value)
    ensures r.Some? ==> forall k :: i <= k < r.value ==> !PointAfterDigits(s, k)
    ensures r.None? ==> forall k :: i <= k <= |s| ==> !PointAfterDigits(s, k)
    decreases |s| - i
  {
    if PointAfterDigits(s, i) then Some(i)
    else if i == |s| then None
    else MantissaStart(s, i + 1)
  }

  /**
   * The first match of `(\d*\.\d*)e?([+-]\d*)?` in a printed e-value: the
   * text before it, the first group (the mantissa), the second group when it
   * took part, and the text after the match.
   */
  datatype EvalueParts =
    | Unmatched
    | Matched(before: string, mantissa: string, exponent: Option<string>, after: string)

  function EvalueMatch(text: string): (r: EvalueParts)
  {
    match MantissaStart(text, 0)
    case None => Unmatched
    case Some(i) =>
      var k := DigitsEnd(text, DigitsEnd(text, i) + 1);
      var p := if k < |text| && text[k] == 'e' then k + 1 else k;
      if p < |text| && (text[p] == '+' || text[p] == '-') then
        var q := DigitsEnd(text, p + 1);
        Matched(text[..i], text[i..k], Some(text[p..q]), text[q..])
      else
        Matched(text[..i], text[i..k], None, text[p..])
  }

  /**
   * `pretty_evalue`: the matched mantissa to three decimals, followed by
   * " x 10<sup>exponent</sup>" when an exponent was matched; text without a
   * decimal point is left as it is.
   */
  function PrettyEvalue(text: string, fixed3: string -> string): string
  {
    match EvalueMatch(text)
    case Unmatched => text
    case Matched(before, mantissa, exponent, after) =>
      before + (if exponent.Some? then Raised(fixed3(mantissa), exponent.value) else fixed3(mantissa)) + after
  }

  /** The block's `s << " x 10<sup>#{$2}</sup>"`. */
  function Raised(mantissa: string, exponent: string): string
  {
    mantissa + " x 10<sup>" + exponent + "</sup>"
  }

  /**
   * `t` reads as a number in scientific notation, as Float#to_s prints small
   * e-values: digits, the point at `j`, digits, `e` at `k`, a sign, and
   * digits to the end.
   */
  predicate ScientificText(t: string, j: nat, k: nat)
  {
    DigitsEnd(t, 0) == j && j < |t| && t[j] == '.' &&
    DigitsEnd(t, j + 1) == k && k + 1 < |t| && t[k] == 'e' && (t[k + 1] == '+' || t[k + 1] == '-') &&
    DigitsEnd(t, k + 2) == |t|
  }

  /** `t` reads as a number in plain notation: digits, the point at `j`, and digits to the end. */
  predicate PlainText(t: string, j: nat)
  {
    DigitsEnd(t, 0) == j && j < |t| && t[j] == '.' && DigitsEnd(t, j + 1) == |t|
  }

  /** In scientific notation the whole text is the match: the mantissa before `e`, the signed exponent after it. */
  lemma ScientificMatch(t: string, j: nat, k: nat)
    requires ScientificText(t, j, k)
    ensures EvalueMatch(t) == Matched("", t[..k], Some(t[k + 1..]), "")
  {
    assert MantissaStart(t, 0) == Some(0);
    assert t[..0] == "" && t[0..k] == t[..k] && t[k + 1..|t|] == t[k + 1..] && t[|t|..] == "";
  }

  /** Small e-values are shown as the mantissa to three decimals times a raised power of ten. */
  lemma PrettyEvalueScientific(t: string, j: nat, k: nat, fixed3: string -> string)
    requires ScientificText(t, j, k)
    ensures PrettyEvalue(t, fixed3) == Raised(fixed3(t[..k]), t[k + 1..])
  {
    ScientificMatch(t, j, k);
    var r := Raised(fixed3(t[..k]), t[k + 1..]);
    assert "" + r + "" == r;
  }

  /** In plain notation the whole text is the match, without an exponent. */
  lemma PlainMatch(t: string, j: nat)
    requires PlainText(t, j)
    ensures EvalueMatch(t) == Matched("", t, None, "")
  {
    assert MantissaStart(t, 0) == Some(0);
    assert t[..0] == "" && t[0..|t|] == t && t[|t|..] == "";
  }

  /** Other e-values are shown to three decimals. */
  lemma PrettyEvaluePlain(t: string, j: nat, fixed3: string -> string)
    requires PlainText(t, j)
    ensures PrettyEvalue(t, fixed3) == fixed3(t)
  {
    PlainMatch(t, j);
    var r := fixed3(t);
    assert "" + r + "" == r;
  }

  /** Text without a decimal point, such as "Infinity", is shown as it is. */
  lemma PrettyEvalueWithoutPoint(text: string, fixed3: string -> string)
    requires forall k :: 0 <= k < |text| ==> text[k] != '.'
    ensures PrettyEvalue(text, fixed3) == text
  {
    assert EvalueMatch(text).Unmatched?;
  }



  // ---------------------------------------------------------------- the table

  /** The texts of one HSP's statistics, each computed once. */
  datatype Texts = Texts(score: string, evalue: string, identities: string, gaps: string, positives: string, strand: string)

  function TextsOf(h: Hsp, fmt: Formats): Texts
  {
    Texts(ScoreText(fmt.floatText(h.bitScore), h.score), PrettyEvalue(fmt.floatText(h.evalue), fmt.fixed3),
          Fraction(h.identity, h.len, fmt.percent(h.identity, h.len)), Fraction(h.gaps, h.len, fmt.percent(h.gaps, h.len)),
          Fraction(h.positives, h.len, fmt.percent(h.positives, h.len)), StrandAsWritten(h))
  }

  /** The value `filter_hsp_stats` stores under each key. */
  function StatFor(key: string, t: Texts, h: Hsp): Stat
  {
    match key
    case "Score" => Shown(t.score)
    case "Expect" => Shown(t.evalue)
    case "Identities" => Shown(t.identities)
    case "Gaps" => Shown(t.gaps)
    case "Positives" => Shown(t.positives)
    case "Query Frame" => Number(h.qframe)
    case "Hit Frame" => Number(h.hframe)
    case _ => Shown(t.strand)
  }

  /** Each entry holds the statistic `filter_hsp_stats` stores under its key. */
  predicate Faithful(stats: Stats, t: Texts, h: Hsp)
  {
    forall i :: 0 <= i < |stats| ==> stats[i].1 == StatFor(stats[i].0, t, h)
  }

  lemma PutFaithful(stats: Stats, key: string, t: Texts, h: Hsp)
    requires Faithful(stats, t, h)
    ensures Faithful(Put(stats, key, StatFor(key, t, h)), t, h)
  {
    var r := Put(stats, key, StatFor(key, t, h));
    forall i | 0 <= i < |r|
      ensures r[i].1 == StatFor(r[i].0, t, h)
    {
      if r[i] != (key, StatFor(key, t, h)) {
        var j :| 0 <= j < |stats| && stats[j] == r[i];
      }
    }
  }

  /** The four entries every program reports, in the order the hash literal lists them. */
  function BaseStats(t: Texts, h: Hsp): (r: Stats)
    ensures Keys(r) == BaseKeys
    ensures Faithful(r, t, h)
  {
    var r := [("Score", StatFor("Score", t, h)), ("Expect", StatFor("Expect", t, h)),
              ("Identities", StatFor("Identities", t, h)), ("Gaps", StatFor("Gaps", t, h))];
    assert Keys(r) == [r[0].0, r[1].0, r[2].0, r[3].0];
    r
  }

  /** `filter_hsp_stats`: the statistics table of one HSP, filled entry by entry. */
  method FilterHspStats(program: Value, h: Hsp, fmt: Formats) returns (stats: Stats)
    ensures Keys(stats) == StatKeys(program)
    ensures Faithful(stats, TextsOf(h, fmt), h)
  {
    var t := TextsOf(h, fmt);
    stats := BaseStats(t, h);
    NewKeys();
    if program == Str("blastp") {
      PutNew(stats, "Positives", t, h);
      stats := Put(stats, "Positives", StatFor("Positives", t, h));
    } else if program == Str("blastx") {
      PutNew(stats, "Query Frame", t, h);
      stats := Put(stats, "Query Frame", StatFor("Query Frame", t, h));
    } else if program == Str("tblastn") {
      PutNew(stats, "Hit Frame", t, h);
      stats := Put(stats, "Hit Frame", StatFor("Hit Frame", t, h));
    } else if program == Str("tblastx") {
      PutNew(stats, "Positives", t, h);
      stats := Put(stats, "Positives", StatFor("Positives", t, h));
    }
    assert Keys(stats) == BaseKeys + FrameKeys(program);
    if program == Str("blastn") || program == Str("tblastx") {
      PutNew(stats, "Strand", t, h);
      stats := Put(stats, "Strand", StatFor("Strand", t, h));
    }
  }

  /** Storing under a key not yet present appends it and keeps the table faithful. */
  lemma PutNew(stats: Stats, key: string, t: Texts, h: Hsp)
    requires Faithful(stats, t, h) && key !in Keys(stats)
    ensures Keys(Put(stats, key, StatFor(key, t, h))) == Keys(stats) + [key]
    ensures Faithful(Put(stats, key, StatFor(key, t, h)), t, h)
  {
    PutFaithful(stats, key, t, h);
  }

  /** The keys a program adds are not among the common ones, and the strand comes after any of them. */
  lemma NewKeys()
    ensures "Positives" !in BaseKeys && "Query Frame" !in BaseKeys && "Hit Frame" !in BaseKeys
    ensures "Strand" !in BaseKeys + ["Positives"] && "Strand" !in BaseKeys
  {
  }

  /** Every key appears once, so each statistic is found under its own key. */
  lemma StatKeysDistinct(program: Value)
    ensures forall i, j :: 0 <= i < j < |StatKeys(program)| ==> StatKeys(program)[i] != StatKeys(program)[j]
  {
  }
}
