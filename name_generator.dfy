/**
 * The title given to a database from its file path and the dirty name in its
 * FASTA headers: a kind tag, the species from the path, and a suffix of
 * keywords and version numbers picked out of the dirty name.
 */
module NameGenerator {
  import opened Wrappers
  import opened Text

  /** What a `<file>.<ext>.yaml` description next to the database holds, for each one that exists. */
  datatype Info = Info(family: Option<string>, taxid: Option<int>)

  // ---------------------------------------------------------------- clean

  /** Ruby's `chomp('.')`: one trailing dot removed. */
  function ChompDot(s: string): (r: string)
    ensures r == s || (s == r + ".")
  {
    if |s| > 0 && s[|s| - 1] == '.' then s[..|s| - 1] else s
  }

  /** `clean`: one trailing dot off, then leading whitespace, then one leading dot. */
  function Clean(s: string): string
  {
    var t := LStrip(ChompDot(s));
    if |t| > 0 && t[0] == '.' then t[1..] else t
  }

  /** What `clean` removes in front: whitespace, perhaps followed by one dot. */
  predicate CleanedLead(pre: string)
  {
    AllSpace(pre) || (|pre| > 0 && pre[|pre| - 1] == '.' && AllSpace(pre[..|pre| - 1]))
  }

  /** `r` is `s` with `s[..i]` cut in front and at most one dot cut at the end. */
  predicate MiddleAt(s: string, r: string, i: nat)
  {
    i + |r| <= |s| && s[i..i + |r|] == r && CleanedLead(s[..i]) && (s[i + |r|..] == "" || s[i + |r|..] == ".")
  }

  /** `clean` keeps a middle part of its input, dropping in front only whitespace and one dot, and at the end at most one dot. */
  lemma CleanKeepsMiddle(s: string)
    ensures exists i :: MiddleAt(s, Clean(s), i)
  {
    var c := ChompDot(s);
    var t := LStrip(c);
    var i := |c| - |t|;
    assert c == s[..|c|];
    assert s[..i] == c[..i];
    assert AllSpace(s[..i]);
    if |t| > 0 && t[0] == '.' {
      var r := t[1..];
      assert s[i] == '.';
      assert s[..i + 1] == s[..i] + [s[i]];
      assert s[..i + 1][..i] == s[..i];
      assert CleanedLead(s[..i + 1]);
      assert s[i + 1..i + 1 + |r|] == r;
      assert s[i + 1 + |r|..] == s[|c|..];
      assert MiddleAt(s, Clean(s), i + 1);
    } else {
      assert s[i..i + |t|] == t;
      assert s[i + |t|..] == s[|c|..];
      assert MiddleAt(s, Clean(s), i);
    }
  }

  /** Whitespace alone cleans to nothing. */
  lemma CleanSpace(s: string)
    requires AllSpace(s)
    ensures Clean(s) == ""
  {
    assert |s| > 0 ==> IsSpace(s[|s| - 1]);
    assert ChompDot(s) == s;
    LStripSpace(s);
  }

  /** Digits alone come out of `clean` as they went in. */
  lemma CleanDigits(s: string)
    requires AllDigits(s)
    ensures Clean(s) == s
  {
    if |s| > 0 {
      assert IsDigit(s[|s| - 1]) && IsDigit(s[0]);
    }
  }

  // ---------------------------------------------------------------- the suffix taken from the dirty name

  const Keywords: seq<string> := ["OGS", "GCA", "monogynous", "polygynous"]

  /** The names of `names` the dirty name mentions, in the order of `names`. */
  function Present(dirty: string, names: seq<string>): (r: seq<string>)
    ensures |r| <= |names|
  {
    if names == [] then []
    else Present(dirty, names[..|names| - 1]) + (if Contains(dirty, names[|names| - 1]) then [names[|names| - 1]] else [])
  }

  /** A name is listed exactly when it is one of `names` and the dirty name mentions it. */
  lemma {:induction false} PresentMembers(dirty: string, names: seq<string>)
    ensures forall x :: x in Present(dirty, names) <==> x in names && Contains(dirty, x)
  {
    if names != [] {
      var init, last := names[..|names| - 1], names[|names| - 1];
      PresentMembers(dirty, init);
      assert names == init + [last];
    }
  }

  /** Each name followed by a space. */
  function Spaced(names: seq<string>): (r: seq<string>)
    ensures |r| == |names| && forall i :: 0 <= i < |names| ==> r[i] == names[i] + " "
  {
    if names == [] then [] else Spaced(names[..|names| - 1]) + [names[|names| - 1] + " "]
  }

  /** The keyword loop, over its first `k` names: each mentioned name and a space, in order. */
  function KeywordPart(dirty: string, names: seq<string>, k: nat): string
    requires k <= |names|
  {
    if k == 0 then ""
    else KeywordPart(dirty, names, k - 1) + (if Contains(dirty, names[k - 1]) then names[k - 1] + " " else "")
  }

  /** The keyword part lists exactly the mentioned names, each once, in the order of the list. */
  lemma {:induction false} KeywordsInOrder(dirty: string, names: seq<string>, k: nat)
    requires k <= |names|
    ensures KeywordPart(dirty, names, k) == Concat(Spaced(Present(dirty, names[..k])))
  {
    if k > 0 {
      KeywordsInOrder(dirty, names, k - 1);
      PresentStep(dirty, names, k);
      var before, x := Present(dirty, names[..k - 1]), names[k - 1];
      if Contains(dirty, x) {
        SpacedAppend(before, x);
        assert Present(dirty, names[..k]) == before + [x];
        assert KeywordPart(dirty, names, k) == KeywordPart(dirty, names, k - 1) + (x + " ");
      } else {
        assert Present(dirty, names[..k]) == before;
        assert KeywordPart(dirty, names, k) == KeywordPart(dirty, names, k - 1);
      }
    }
  }

  lemma PresentStep(dirty: string, names: seq<string>, k: nat)
    requires 0 < k <= |names|
    ensures Present(dirty, names[..k]) == Present(dirty, names[..k - 1]) + (if Contains(dirty, names[k - 1]) then [names[k - 1]] else [])
  {
    assert names[..k][..k - 1] == names[..k - 1];
  }

  lemma SpacedAppend(names: seq<string>, x: string)
    ensures Concat(Spaced(names + [x])) == Concat(Spaced(names)) + (x + " ")
  {
    var now := names + [x];
    assert now[..|now| - 1] == names;
    assert Spaced(now)[..|now| - 1] == Spaced(names);
  }

  /** A note added when the dirty name mentions a particular text. */
  function NoteFor(dirty: string, mention: string, note: string): string
  {
    if Contains(dirty, mention) then note else ""
  }

  /** The keywords, then the notes for three particular dirty names; the first note has no space after it. */
  function HeadOf(dirty: string): string
  {
    KeywordPart(dirty, Keywords, |Keywords|)
    + NoteFor(dirty, "Si gnF", "Si_gnF")
    + NoteFor(dirty, "formica exsecta assembled transcriptome v1", "(Badouin et al) ")
    + NoteFor(dirty, "Trinity formica exsecta", "(Morandin et al) ")
  }

  /** The digits of each of the first `k` dot-separated parts, each closed by a dot. */
  function DigitGroups(parts: seq<string>, k: nat): string
    requires k <= |parts|
  {
    if k == 0 then ""
    else DigitGroups(parts, k - 1) + DigitGroup(parts[k - 1])
  }

  /** One part's digits, closed by a dot. */
  function DigitGroup(part: string): string
  {
    DigitsIn(part) + "."
  }

  /** `clean(part.scan(/\d/).join('')) + '.'`: cleaning the digits changes nothing. */
  lemma DigitGroupCleaned(part: string)
    ensures Clean(DigitsIn(part)) + "." == DigitGroup(part)
  {
    CleanDigits(DigitsIn(part));
  }

  predicate DigitsAndDots(s: string)
  {
    forall i :: 0 <= i < |s| ==> IsDigit(s[i]) || s[i] == '.'
  }

  lemma DigitsAndDotsAppend(a: string, b: string)
    requires DigitsAndDots(a) && DigitsAndDots(b)
    ensures DigitsAndDots(a + b)
  {
    forall i | 0 <= i < |a + b|
      ensures IsDigit((a + b)[i]) || (a + b)[i] == '.'
    {
      if i >= |a| {
        assert (a + b)[i] == b[i - |a|];
      }
    }
  }

  /** The digit groups hold only digits and the dots that close them. */
  lemma {:induction false} DigitGroupsChars(parts: seq<string>, k: nat)
    requires k <= |parts|
    ensures DigitsAndDots(DigitGroups(parts, k))
    decreases k
  {
    if k > 0 {
      DigitGroupsChars(parts, k - 1);
      DigitGroupStep(parts, k);
    }
  }

  lemma DigitGroupStep(parts: seq<string>, k: nat)
    requires 0 < k <= |parts|
    requires DigitsAndDots(DigitGroups(parts, k - 1))
    ensures DigitsAndDots(DigitGroups(parts, k))
  {
    var g := DigitsIn(parts[k - 1]);
    assert DigitsAndDots(g);
    DigitsAndDotsAppend(g, ".");
    DigitsAndDotsAppend(DigitGroups(parts, k - 1), g + ".");
  }

  /** The number of dots the digit groups hold is the number of parts. */
  lemma {:induction false} DigitGroupsCount(parts: seq<string>, k: nat)
    requires k <= |parts|
    ensures CountChar(DigitGroups(parts, k), '.') == k
    decreases k
  {
    if k == 0 {
      assert DigitGroups(parts, k) == "";
      assert CountChar("", '.') == 0;
    } else {
      DigitGroupsCount(parts, k - 1);
      DigitGroupCountStep(parts, k);
    }
  }

  lemma DigitGroupCountStep(parts: seq<string>, k: nat)
    requires 0 < k <= |parts|
    ensures CountChar(DigitGroups(parts, k), '.') == CountChar(DigitGroups(parts, k - 1), '.') + 1
  {
    var g := DigitsIn(parts[k - 1]);
    CountCharAppend(DigitGroups(parts, k - 1), g + ".", '.');
    CountCharAppend(g, ".", '.');
    NoDotInDigits(g);
  }

  lemma {:induction false} NoDotInDigits(g: string)
    requires AllDigits(g)
    ensures CountChar(g, '.') == 0
  {
    if g != [] {
      assert IsDigit(g[|g| - 1]);
      NoDotInDigits(g[..|g| - 1]);
    }
  }

  /** `extract_from_dirty`: keywords, notes and the digits of each dot-separated part, cleaned. */
  function ExtractOf(dirty: string): string
  {
    var parts := Split(dirty, '.');
    Clean(HeadOf(dirty) + DigitGroups(parts, |parts|))
  }

  /**
   * `^\s*$` with Ruby's line anchors: some line of `s` is blank, or `s` itself
   * is. `^` matches after a newline only when text follows it.
   */
  predicate BlankLineIn(s: string)
  {
    exists i, j :: 0 <= i <= j <= |s| && (i == 0 || (i < |s| && s[i - 1] == '\n')) && (j == |s| || s[j] == '\n') && AllSpace(s[i..j])
  }

  /** The part of the title after the species. */
  function SuffixOf(clean: string): (r: string)
    ensures r == "" <==> BlankLineIn(clean)
    ensures r != "" ==> r == " - " + clean
  {
    if BlankLineIn(clean) then "" else " - " + clean
  }

  /** A suffix with no newline is left out exactly when it is all whitespace. */
  lemma SuffixOfOneLine(clean: string)
    requires '\n' !in clean
    ensures SuffixOf(clean) == "" <==> AllSpace(clean)
  {
    if BlankLineIn(clean) {
      var i, j :| 0 <= i <= j <= |clean| && (i == 0 || (i < |clean| && clean[i - 1] == '\n')) && (j == |clean| || clean[j] == '\n') && AllSpace(clean[i..j]);
      assert i == 0 && j == |clean|;
      assert clean[i..j] == clean;
    } else {
      assert !AllSpace(clean[0..|clean|]);
      assert clean[0..|clean|] == clean;
    }
  }

  // ---------------------------------------------------------------- the prefix and the title

  /** The kind of database, from the third-last segment of the path. */
  function KindTag(segs: seq<string>): string
  {
    if |segs| >= 3 && segs[|segs| - 3] == "genome" then "[Genome] "
    else if |segs| >= 3 && segs[|segs| - 3] == "transcripts" then "[Transcriptome] "
    else ""
  }

  /** The outgroup tag, once per description whose family is not Formicidae. */
  function Outgroups(infos: seq<Info>): string
  {
    if infos == [] then ""
    else Outgroups(infos[..|infos| - 1]) + OutgroupTag(infos[|infos| - 1])
  }

  function OutgroupTag(info: Info): string
  {
    if info.family != Some("Formicidae") then "[Outgroup] " else ""
  }

  lemma OutgroupsStep(kind: string, infos: seq<Info>, k: nat, prefix: string)
    requires k < |infos| && prefix == kind + Outgroups(infos[..k])
    ensures prefix + OutgroupTag(infos[k]) == kind + Outgroups(infos[..k + 1])
  {
    assert infos[..k + 1][..k] == infos[..k];
    assert Outgroups(infos[..k + 1]) == Outgroups(infos[..k]) + OutgroupTag(infos[k]);
  }

  function OutgroupCount(infos: seq<Info>): (n: nat)
    ensures n <= |infos|
  {
    if infos == [] then 0
    else OutgroupCount(infos[..|infos| - 1]) + (if infos[|infos| - 1].family != Some("Formicidae") then 1 else 0)
  }

  /** No outgroup tag is counted exactly when every description belongs to Formicidae. */
  lemma {:induction false} OutgroupCountZero(infos: seq<Info>)
    ensures OutgroupCount(infos) == 0 <==> forall i :: 0 <= i < |infos| ==> infos[i].family == Some("Formicidae")
  {
    if infos != [] {
      var init := infos[..|infos| - 1];
      OutgroupCountZero(init);
      if OutgroupCount(infos) == 0 {
        forall i | 0 <= i < |infos| ensures infos[i].family == Some("Formicidae") {
          if i < |init| { assert infos[i] == init[i]; }
        }
      }
      if forall i :: 0 <= i < |infos| ==> infos[i].family == Some("Formicidae") {
        forall i | 0 <= i < |init| ensures init[i].family == Some("Formicidae") {
          assert init[i] == infos[i];
        }
      }
    }
  }

  /** `s` written `n` times over. */
  function Repeat(s: string, n: nat): string
  {
    if n == 0 then "" else Repeat(s, n - 1) + s
  }

  /** `make_prefix`: the kind tag, then as many outgroup tags as there are non-Formicidae descriptions. */
  function PrefixOf(segs: seq<string>, infos: seq<Info>): string
  {
    KindTag(segs) + Outgroups(infos)
  }

  lemma {:induction false} OutgroupsRepeat(infos: seq<Info>)
    ensures Outgroups(infos) == Repeat("[Outgroup] ", OutgroupCount(infos))
  {
    if infos != [] {
      var init := infos[..|infos| - 1];
      OutgroupsRepeat(init);
      var n := OutgroupCount(init);
      if infos[|infos| - 1].family != Some("Formicidae") {
        assert OutgroupCount(infos) == n + 1;
        assert Repeat("[Outgroup] ", n + 1) == Repeat("[Outgroup] ", n) + "[Outgroup] ";
      } else {
        assert OutgroupCount(infos) == n;
      }
    }
  }

  /** The prefix names the kind of database first, then the outgroup tags, one per non-Formicidae description. */
  lemma PrefixShape(segs: seq<string>, infos: seq<Info>)
    ensures PrefixOf(segs, infos) == KindTag(segs) + Repeat("[Outgroup] ", OutgroupCount(infos))
    ensures |segs| >= 3 && segs[|segs| - 3] == "genome" ==> StartsWith(PrefixOf(segs, infos), "[Genome] ")
    ensures |segs| >= 3 && segs[|segs| - 3] == "transcripts" ==> StartsWith(PrefixOf(segs, infos), "[Transcriptome] ")
  {
    OutgroupsRepeat(infos);
  }

  /** The species: the second-last path segment with underscores turned into spaces. */
  function SpeciesOf(segs: seq<string>): (r: string)
    requires |segs| >= 2
    ensures |r| == |segs[|segs| - 2]| && '_' !in r
  {
    ReplaceChar(segs[|segs| - 2], '_', ' ')
  }

  /** `make_title`, for the path's segments: `nil.gsub` raises when there are fewer than two. */
  function TitleOf(segs: seq<string>, dirty: string, infos: seq<Info>): (r: Result<string>)
    ensures r.Err? <==> |segs| < 2
    ensures r.Ok? ==> StartsWith(r.value, PrefixOf(segs, infos) + SpeciesOf(segs))
    ensures r.Ok? ==> (r.value == PrefixOf(segs, infos) + SpeciesOf(segs) <==> BlankLineIn(ExtractOf(dirty)))
  {
    if |segs| < 2 then Err("undefined method `gsub' for nil:NilClass")
    else
      var head := PrefixOf(segs, infos) + SpeciesOf(segs);
      var title := head + SuffixOf(ExtractOf(dirty));
      assert title[..|head|] == head;
      assert |title| == |head| <==> SuffixOf(ExtractOf(dirty)) == "";
      Ok(title)
  }

  /**
   * `each_compressed`: the block's value for each description, in turn, and
   * what the method itself returns, which is `nil` whatever the block gave.
   */
  function EachCompressed<T>(infos: seq<Info>, block: Info -> T): (r: (seq<T>, Option<T>))
    ensures |r.0| == |infos| && forall i :: 0 <= i < |infos| ==> r.0[i] == block(infos[i])
    ensures r.1.None?
  {
    (seq(|infos|, i requires 0 <= i < |infos| => block(infos[i])), None)
  }

  /** The block `yaml_tax_id` passes: the description's `taxid`. */
  function TaxIdBlock(info: Info): Option<int>
  {
    info.taxid
  }

  /** `yaml_tax_id` as written: the block's `info['taxid']` is dropped by `each_compressed`, so `|| 0` always applies. */
  function TaxIdOf(infos: seq<Info>): int
  {
    var returned: Option<Option<int>> := EachCompressed(infos, TaxIdBlock).1;
    match returned
    case Some(Some(id)) => id
    case _ => 0
  }

  /** As written, a tax id in a description file never reaches the result. */
  lemma TaxIdIgnoresYaml(infos: seq<Info>, i: nat)
    requires i < |infos| && infos[i].taxid.Some? && infos[i].taxid.value != 0
    ensures TaxIdOf(infos) != infos[i].taxid.value
  {
    assert EachCompressed(infos, TaxIdBlock).1.None?;
  }

  /** `yaml_tax_id` as intended: the tax id of the first description that gives one, and 0 when none does. */
  function TaxIdCorrected(infos: seq<Info>): (r: int)
    ensures (forall i :: 0 <= i < |infos| ==> infos[i].taxid.None?) ==> r == 0
    ensures (exists i :: 0 <= i < |infos| && infos[i].taxid.Some?) ==>
              exists i :: 0 <= i < |infos| && infos[i].taxid == Some(r) && forall j :: 0 <= j < i ==> infos[j].taxid.None?
  {
    match FirstSomeAt(infos, TaxIdBlock)
    case None => 0
    case Some(k) => infos[k].taxid.value
  }

  /** The correction agrees with the code exactly when no description gives a tax id other than 0. */
  lemma TaxIdCorrectionConservative(infos: seq<Info>)
    ensures TaxIdCorrected(infos) == TaxIdOf(infos) <==> TaxIdCorrected(infos) == 0
  {
    assert EachCompressed(infos, TaxIdBlock).1.None?;
  }

  // ---------------------------------------------------------------- the generator

  /** A name generator for one database file, with the dirty name read from its headers. */
  class Generator {
    const fname: string
    const pathSegs: seq<string>
    const dirtyName: string

    constructor(fname: string, dirtyName: string)
      ensures this.fname == fname && this.dirtyName == dirtyName && pathSegs == Split(fname, '/')
    {
      this.fname := fname;
      this.pathSegs := Split(fname, '/');
      this.dirtyName := dirtyName;
    }

    /** `get`: the title and the tax id. */
    method Get(infos: seq<Info>) returns (r: Result<(string, int)>)
      ensures r.Err? <==> |pathSegs| < 2
      ensures r.Ok? ==> TitleOf(pathSegs, dirtyName, infos).Ok? && r.value == (TitleOf(pathSegs, dirtyName, infos).value, 0)
    {
      var title := MakeTitle(infos);
      if title.Err? {
        return Err(title.error);
      }
      assert EachCompressed(infos, TaxIdBlock).1.None?;
      return Ok((title.value, TaxIdOf(infos)));
    }

    /** `make_title`. */
    method MakeTitle(infos: seq<Info>) returns (r: Result<string>)
      ensures r == TitleOf(pathSegs, dirtyName, infos)
    {
      if |pathSegs| < 2 {
        return Err("undefined method `gsub' for nil:NilClass");
      }
      var species := SpeciesOf(pathSegs);
      var clean := ExtractFromDirty();
      var suffix := if BlankLineIn(clean) then "" else " - " + clean;
      var prefix := MakePrefix(infos);
      return Ok(prefix + species + suffix);
    }

    /** `make_prefix`, with the loop over the descriptions that exist. */
    method MakePrefix(infos: seq<Info>) returns (prefix: string)
      ensures prefix == PrefixOf(pathSegs, infos)
    {
      prefix := "";
      if |pathSegs| >= 3 && pathSegs[|pathSegs| - 3] == "genome" {
        prefix := prefix + "[Genome] ";
      } else if |pathSegs| >= 3 && pathSegs[|pathSegs| - 3] == "transcripts" {
        prefix := prefix + "[Transcriptome] ";
      }
      assert prefix == KindTag(pathSegs);
      prefix := AppendOutgroups(prefix, infos);
    }

    /** The loop of `make_prefix` over the descriptions, after the kind tag `kind`. */
    method AppendOutgroups(kind: string, infos: seq<Info>) returns (prefix: string)
      ensures prefix == kind + Outgroups(infos)
    {
      prefix := kind;
      assert infos[..0] == [];
      var k := 0;
      while k < |infos|
        invariant k <= |infos|
        invariant prefix == kind + Outgroups(infos[..k])
      {
        OutgroupsStep(kind, infos, k, prefix);
        if infos[k].family != Some("Formicidae") {
          prefix := prefix + "[Outgroup] ";
        } else {
          assert prefix + OutgroupTag(infos[k]) == prefix;
        }
        k := k + 1;
      }
      assert infos[..k] == infos;
    }

    /** `extract_from_dirty`, appending to the suffix as it goes. */
    method ExtractFromDirty() returns (r: string)
      ensures r == ExtractOf(dirtyName)
    {
      var suffix := KeywordSuffix();
      suffix := suffix + NoteFor(dirtyName, "Si gnF", "Si_gnF");
      suffix := suffix + NoteFor(dirtyName, "formica exsecta assembled transcriptome v1", "(Badouin et al) ");
      suffix := suffix + NoteFor(dirtyName, "Trinity formica exsecta", "(Morandin et al) ");
      var parts := Split(dirtyName, '.');
      suffix := AppendDigitGroups(suffix, parts);
      return Clean(suffix);
    }

    /** The loop over the keywords, each appended with a space when the dirty name mentions it. */
    method KeywordSuffix() returns (suffix: string)
      ensures suffix == KeywordPart(dirtyName, Keywords, |Keywords|)
    {
      suffix := "";
      var k := 0;
      while k < |Keywords|
        invariant k <= |Keywords|
        invariant suffix == KeywordPart(dirtyName, Keywords, k)
      {
        var name := Keywords[k];
        suffix := suffix + if Contains(dirtyName, name) then name + " " else "";
        k := k + 1;
      }
    }
  }

  lemma AppendGroup(start: string, parts: seq<string>, j: nat)
    requires j < |parts|
    ensures start + DigitGroups(parts, j + 1) == (start + DigitGroups(parts, j)) + DigitGroup(parts[j])
  {
  }

  /** The loop over the dot-separated parts, appending each one's digit group. */
  method AppendDigitGroups(start: string, parts: seq<string>) returns (suffix: string)
    ensures suffix == start + DigitGroups(parts, |parts|)
  {
    suffix := start;
    var j := 0;
    while j < |parts|
      invariant j <= |parts|
      invariant suffix == start + DigitGroups(parts, j)
    {
      var group := Clean(DigitsIn(parts[j])) + ".";
      DigitGroupCleaned(parts[j]);
      AppendGroup(start, parts, j);
      suffix := suffix + group;
      j := j + 1;
    }
  }
}
