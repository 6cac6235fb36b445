/**
 * The string primitives of Ruby and JavaScript that the modelled code relies
 * on: whitespace stripping, the two kinds of `split`, `join`, substring search,
 * integer printing and Ruby's forgiving `to_i` / `to_f` conversions.
 */
module Text {
  import opened Wrappers

  /** Ruby's whitespace for strip, lstrip, rstrip and the argument-less split. */
  predicate IsSpace(c: char)
  {
    c == ' ' || c == '\t' || c == '\n' || c == '\U{000B}' || c == '\U{000C}' || c == '\r'
  }

  predicate IsDigit(c: char)
  {
    '0' <= c <= '9'
  }

  predicate IsLower(c: char)
  {
    'a' <= c <= 'z'
  }

  predicate IsUpper(c: char)
  {
    'A' <= c <= 'Z'
  }

  /** Ruby's and JavaScript's `\w`: ASCII letters, digits and underscore. */
  predicate IsWordChar(c: char)
  {
    IsLower(c) || IsUpper(c) || IsDigit(c) || c == '_'
  }

  predicate AllSpace(s: string)
  {
    forall i :: 0 <= i < |s| ==> IsSpace(s[i])
  }

  predicate AllDigits(s: string)
  {
    forall i :: 0 <= i < |s| ==> IsDigit(s[i])
  }

  predicate StartsWith(s: string, p: string)
  {
    |p| <= |s| && s[..|p|] == p
  }

  predicate EndsWith(s: string, p: string)
  {
    |p| <= |s| && s[|s| - |p|..] == p
  }

  // ---------------------------------------------------------------- BLAST option text

  /**
   * The characters `/\A[a-z0-9\-_\. ']*\Z/i` accepts, ignoring case. Unicode
   * case folding adds two letters outside ASCII: the Kelvin sign, which folds
   * to `k`, and the long s, which folds to `s`.
   */
  predicate OptionChar(c: char)
  {
    IsLower(c) || IsUpper(c) || IsDigit(c) || c == '-' || c == '_' || c == '.' || c == ' ' || c == '\''
    || c == '\U{212A}' || c == '\U{017F}'
  }

  predicate AllOptionChars(s: string)
  {
    forall i :: 0 <= i < |s| ==> OptionChar(s[i])
  }

  /** The whole-string pattern: allowed characters only, where `\Z` also admits one final newline. */
  predicate OptionsPatternMatches(s: string)
  {
    AllOptionChars(s) || (|s| > 0 && s[|s| - 1] == '\n' && AllOptionChars(s[..|s| - 1]))
  }

  // ---------------------------------------------------------------- stripping

  /** The number of leading whitespace characters. */
  function LeadingSpace(s: string): (n: nat)
    ensures n <= |s| && (n == |s| || !IsSpace(s[n]))
    ensures forall k :: 0 <= k < n ==> IsSpace(s[k])
  {
    if |s| > 0 && IsSpace(s[0]) then
      var n := LeadingSpace(s[1..]);
      assert forall k :: 1 <= k < 1 + n ==> s[k] == s[1..][k - 1];
      1 + n
    else 0
  }

  /** Ruby's `lstrip`: drop leading whitespace. */
  function LStrip(s: string): string
  {
    s[LeadingSpace(s)..]
  }

  /** Whitespace alone strips to nothing. */
  lemma {:induction false} LStripSpace(s: string)
    requires AllSpace(s)
    ensures LStrip(s) == ""
  {
    if |s| > 0 {
      LStripSpace(s[1..]);
    }
  }

  /** What Ruby's `rstrip` drops from the end: whitespace and the NUL character. */
  predicate IsStripped(c: char)
  {
    IsSpace(c) || c == '\0'
  }

  /** Where the trailing characters begin that `rstrip` drops, or, without `nul`, only whitespace. */
  function TrailingStart(s: string, nul: bool): (n: nat)
    ensures n <= |s| && (n == 0 || !(IsSpace(s[n - 1]) || (nul && s[n - 1] == '\0')))
    ensures forall k :: n <= k < |s| ==> IsSpace(s[k]) || (nul && s[k] == '\0')
  {
    if |s| > 0 && (IsSpace(s[|s| - 1]) || (nul && s[|s| - 1] == '\0')) then
      var n := TrailingStart(s[..|s| - 1], nul);
      assert forall k :: n <= k < |s| - 1 ==> s[k] == s[..|s| - 1][k];
      n
    else |s|
  }

  /** Ruby's `rstrip`: drop trailing whitespace and NUL characters. */
  function RStrip(s: string): string
  {
    s[..TrailingStart(s, true)]
  }

  /**
   * Ruby's `strip`: `lstrip` then `rstrip`, so no whitespace at the start and
   * neither whitespace nor NUL at the end. A leading NUL is kept.
   */
  function Strip(s: string): (r: string)
    ensures |r| == 0 || (!IsSpace(r[0]) && !IsStripped(r[|r| - 1]))
  {
    RStrip(LStrip(s))
  }

  /**
   * The surrounding whitespace that `Integer()` and `Float()` allow around a
   * number. Unlike `strip`, a NUL is not dropped: they refuse it.
   */
  function TrimSpace(s: string): (r: string)
    ensures |r| == 0 || (!IsSpace(r[0]) && !IsSpace(r[|r| - 1]))
  {
    var t := LStrip(s);
    t[..TrailingStart(t, false)]
  }

  /** Text with nothing to strip at either end is its own `strip` and its own trim. */
  lemma StripUnpadded(s: string)
    requires |s| > 0 && !IsSpace(s[0]) && !IsStripped(s[|s| - 1])
    ensures Strip(s) == s && TrimSpace(s) == s
  {
    assert LeadingSpace(s) == 0;
    assert LStrip(s) == s;
    assert TrailingStart(s, true) == |s| && TrailingStart(s, false) == |s|;
  }

  /**
   * `strip` leaves nothing exactly when every character is whitespace or NUL:
   * a leading NUL survives `lstrip` but not `rstrip`.
   */
  lemma StripBlank(s: string)
    ensures Strip(s) == [] <==> forall i :: 0 <= i < |s| ==> IsStripped(s[i])
  {
    var t := LStrip(s);
    var n := LeadingSpace(s);
    assert t == s[n..];
    if forall i :: 0 <= i < |s| ==> IsStripped(s[i]) {
      assert forall k :: 0 <= k < |t| ==> IsStripped(t[k]) by {
        forall k | 0 <= k < |t| ensures IsStripped(t[k]) { assert t[k] == s[n + k]; }
      }
      AllStrippedGone(t);
    } else {
      var i :| 0 <= i < |s| && !IsStripped(s[i]);
      assert i >= n;
      assert t[i - n] == s[i];
      assert TrailingStart(t, true) > i - n;
    }
  }

  lemma {:induction false} AllStrippedGone(t: string)
    requires forall k :: 0 <= k < |t| ==> IsStripped(t[k])
    ensures TrailingStart(t, true) == 0
  {
    if |t| > 0 {
      AllStrippedGone(t[..|t| - 1]);
    }
  }

  // ---------------------------------------------------------------- searching

  /** `p` occurs in `s` at position `j`. */
  predicate MatchAt(s: string, p: string, j: nat)
  {
    j + |p| <= |s| && s[j..j + |p|] == p
  }

  /** Index of the first occurrence of `p` in `s` at or after `k`. */
  function IndexOfFrom(s: string, p: string, k: nat): (r: Option<nat>)
    requires k <= |s|
    ensures r.Some? ==> k <= r.value && MatchAt(s, p, r.value)
    ensures r.Some? ==> forall j: nat :: k <= j < r.value ==> !MatchAt(s, p, j)
    ensures r.None? ==> forall j: nat :: k <= j ==> !MatchAt(s, p, j)
    decreases |s| - k
  {
    if k + |p| > |s| then None
    else if s[k..k + |p|] == p then Some(k)
    else IndexOfFrom(s, p, k + 1)
  }

  /** Index of the first occurrence of `p` in `s`: the leftmost match of a literal pattern. */
  function IndexOf(s: string, p: string): (r: Option<nat>)
    ensures r.Some? ==> MatchAt(s, p, r.value)
    ensures r.Some? ==> forall j: nat :: j < r.value ==> !MatchAt(s, p, j)
    ensures r.None? ==> forall j: nat :: !MatchAt(s, p, j)
  {
    IndexOfFrom(s, p, 0)
  }

  /** End of the run of decimal digits that starts at `k`. */
  function DigitsEnd(s: string, k: nat): (e: nat)
    requires k <= |s|
    ensures k <= e <= |s| && AllDigits(s[k..e])
    ensures e == |s| || !IsDigit(s[e])
    decreases |s| - k
  {
    if k < |s| && IsDigit(s[k]) then
      var e := DigitsEnd(s, k + 1);
      assert s[k..e] == [s[k]] + s[k + 1..e];
      e
    else k
  }

  /** End of the line that starts at `k`: the next newline, or the end of the string. */
  function LineEnd(l: string, k: nat): (e: nat)
    requires k <= |l|
    ensures k <= e <= |l| && (e < |l| ==> l[e] == '\n')
    ensures forall j :: k <= j < e ==> l[j] != '\n'
    decreases |l| - k
  {
    if k == |l| || l[k] == '\n' then k else LineEnd(l, k + 1)
  }

  /**
   * The last occurrence of `p` that starts at or after `lo` and ends by `hi`:
   * where a greedy `.*` followed by the literal `p` stops backtracking.
   */
  function LastMatchIn(s: string, p: string, lo: nat, hi: nat): (r: Option<nat>)
    ensures r.Some? ==> lo <= r.value && r.value + |p| <= hi && MatchAt(s, p, r.value)
    ensures r.Some? ==> forall j: nat :: r.value < j && j + |p| <= hi ==> !MatchAt(s, p, j)
    ensures r.None? ==> forall j: nat :: lo <= j && j + |p| <= hi ==> !MatchAt(s, p, j)
    decreases hi
  {
    if hi < lo + |p| then None
    else if MatchAt(s, p, hi - |p|) then Some(hi - |p|)
    else LastMatchIn(s, p, lo, hi - 1)
  }

  lemma StartsWithConcat(a: string, b: string)
    ensures StartsWith(a + b, a)
  {
    assert (a + b)[..|a|] == a;
  }

  lemma StartsWithTransitive(s: string, p: string, q: string)
    requires StartsWith(s, p) && StartsWith(p, q)
    ensures StartsWith(s, q)
  {
    assert s[..|q|] == s[..|p|][..|q|];
  }

  lemma EndsWithConcat(a: string, b: string)
    ensures EndsWith(a + b, b)
  {
    assert (a + b)[|a + b| - |b|..] == b;
  }

  lemma EndsWithTransitive(s: string, p: string, q: string)
    requires EndsWith(s, p) && EndsWith(p, q)
    ensures EndsWith(s, q)
  {
    assert s[|s| - |q|..] == s[|s| - |p|..][|p| - |q|..];
  }

  /** Two texts matched one after the other match together. */
  lemma MatchAtJoin(s: string, a: string, b: string, j: nat)
    requires MatchAt(s, a, j) && MatchAt(s, b, j + |a|)
    ensures MatchAt(s, a + b, j)
  {
    assert s[j..j + |a + b|] == s[j..j + |a|] + s[j + |a|..j + |a| + |b|];
  }

  /** Ruby's `include?` and a regular expression made of literal characters only. */
  predicate Contains(s: string, p: string)
  {
    IndexOf(s, p).Some?
  }

  lemma ContainsAt(s: string, p: string, j: nat)
    requires MatchAt(s, p, j)
    ensures Contains(s, p)
  {
  }

  /** ASCII lower-casing, which is what a case-insensitive literal match compares. */
  function ToLower(s: string): (r: string)
    ensures |r| == |s|
    ensures forall i :: 0 <= i < |s| ==> r[i] == (if IsUpper(s[i]) then (s[i] as int + 32) as char else s[i])
  {
    if s == [] then []
    else [if IsUpper(s[0]) then (s[0] as int + 32) as char else s[0]] + ToLower(s[1..])
  }

  /** Replace every `a` by `b` (Ruby's `gsub` with one-character strings). */
  function ReplaceChar(s: string, a: char, b: char): (r: string)
    ensures |r| == |s|
    ensures forall i :: 0 <= i < |s| ==> r[i] == (if s[i] == a then b else s[i])
  {
    if s == [] then []
    else [if s[0] == a then b else s[0]] + ReplaceChar(s[1..], a, b)
  }

  /** The characters of `s` that satisfy `IsDigit`, in order: `scan(/\d/).join('')`. */
  function DigitsIn(s: string): (r: string)
    ensures AllDigits(r) && |r| <= |s|
    ensures AllDigits(s) ==> r == s
  {
    if s == [] then []
    else (if IsDigit(s[0]) then [s[0]] else []) + DigitsIn(s[1..])
  }

  // ---------------------------------------------------------------- join and split

  /** Ruby's and JavaScript's `join(sep)`. */
  function Join(parts: seq<string>, sep: string): string
  {
    if |parts| == 0 then ""
    else if |parts| == 1 then parts[0]
    else parts[0] + sep + Join(parts[1..], sep)
  }

  /** The lines read back to back, as a string that `+=` each of them in turn builds. */
  function Concat(lines: seq<string>): string
  {
    if |lines| == 0 then "" else Concat(lines[..|lines| - 1]) + lines[|lines| - 1]
  }

  /** Splitting on a single character and keeping every field, empty ones included (JavaScript's `split`). */
  function Fields(s: string, c: char): (r: seq<string>)
    ensures |r| >= 1
    ensures forall i :: 0 <= i < |r| ==> c !in r[i]
    decreases |s|
  {
    if c in s then
      var i := FirstIndexOfChar(s, c);
      [s[..i]] + Fields(s[i + 1..], c)
    else [s]
  }

  function FirstIndexOfChar(s: string, c: char): (i: nat)
    requires c in s
    ensures i < |s| && s[i] == c && c !in s[..i]
  {
    if s[0] == c then 0 else 1 + FirstIndexOfChar(s[1..], c)
  }

  /** Joining the fields with the separator gives back the input. */
  lemma {:induction false} FieldsJoin(s: string, c: char)
    ensures Join(Fields(s, c), [c]) == s
    decreases |s|
  {
    if c in s {
      var i := FirstIndexOfChar(s, c);
      FieldsJoin(s[i + 1..], c);
      var rest := Fields(s[i + 1..], c);
      assert Fields(s, c) == [s[..i]] + rest;
      assert s == s[..i] + [c] + s[i + 1..];
    }
  }

  /** Splitting pieces joined by a character none of them holds gives the pieces back. */
  lemma {:induction false} JoinFields(parts: seq<string>, c: char)
    requires |parts| >= 1
    requires forall i :: 0 <= i < |parts| ==> c !in parts[i]
    ensures Fields(Join(parts, [c]), c) == parts
  {
    var s := Join(parts, [c]);
    if |parts| == 1 {
      assert s == parts[0];
    } else {
      var rest := Join(parts[1..], [c]);
      assert s == parts[0] + [c] + rest;
      assert s[|parts[0]|] == c;
      var i := FirstIndexOfChar(s, c);
      assert s[..i + 1] == s[..i] + [c];
      assert s[..i] == parts[0];
      assert s[i + 1..] == rest;
      JoinFields(parts[1..], c);
    }
  }

  /** Ruby drops the empty fields at the end of a split. */
  function DropTrailingEmpty(r: seq<string>): (t: seq<string>)
    ensures |t| <= |r| && t == r[..|t|]
    ensures t == [] || t[|t| - 1] != ""
    ensures forall i :: |t| <= i < |r| ==> r[i] == ""
  {
    if r == [] then []
    else if r[|r| - 1] == "" then DropTrailingEmpty(r[..|r| - 1])
    else r
  }

  /** Ruby's `split(c)` with a one-character string other than a space. */
  function Split(s: string, c: char): (r: seq<string>)
    ensures forall i :: 0 <= i < |r| ==> c !in r[i]
  {
    DropTrailingEmpty(Fields(s, c))
  }

  /** Length of the leading run of non-whitespace characters. */
  function TokenLength(s: string): (n: nat)
    ensures n <= |s| && (n < |s| ==> IsSpace(s[n]))
    ensures forall i :: 0 <= i < n ==> !IsSpace(s[i])
  {
    if s == [] || IsSpace(s[0]) then 0 else 1 + TokenLength(s[1..])
  }

  /** Ruby's argument-less `split`: the maximal runs of non-whitespace characters. */
  function SplitWs(s: string): seq<string>
    decreases |s|
  {
    var t := LStrip(s);
    if t == [] then []
    else
      var n := TokenLength(t);
      [t[..n]] + SplitWs(t[n..])
  }

  /** A token of the argument-less split: non-empty and free of whitespace. */
  predicate IsToken(t: string)
  {
    t != [] && forall j :: 0 <= j < |t| ==> !IsSpace(t[j])
  }

  /** Every field of the split is a token. */
  lemma {:induction false} SplitWsTokens(s: string)
    ensures forall i :: 0 <= i < |SplitWs(s)| ==> IsToken(SplitWs(s)[i])
    decreases |s|
  {
    var t := LStrip(s);
    if t != [] {
      var n := TokenLength(t);
      SplitWsTokens(t[n..]);
      var r, rest := SplitWs(s), SplitWs(t[n..]);
      assert r == [t[..n]] + rest;
      forall i | 0 <= i < |r|
        ensures IsToken(r[i])
      {
        if i == 0 {
          assert r[0] == t[..n] && n > 0;
        } else {
          assert r[i] == rest[i - 1];
        }
      }
    }
  }

  /** The leading token ends where the whitespace after it begins. */
  lemma {:induction false} TokenLengthOfToken(t: string, rest: string)
    requires forall j :: 0 <= j < |t| ==> !IsSpace(t[j])
    requires rest == [] || IsSpace(rest[0])
    ensures TokenLength(t + rest) == |t|
    decreases |t|
  {
    if t != [] {
      assert (t + rest)[1..] == t[1..] + rest;
      TokenLengthOfToken(t[1..], rest);
    }
  }

  /** A token followed by whitespace or nothing is the first field of the split. */
  lemma SplitWsCons(t: string, rest: string)
    requires IsToken(t)
    requires rest == [] || IsSpace(rest[0])
    ensures SplitWs(t + rest) == [t] + SplitWs(rest)
  {
    var s := t + rest;
    assert LStrip(s) == s;
    TokenLengthOfToken(t, rest);
    assert s[..|t|] == t && s[|t|..] == rest;
  }

  /** A single token splits to itself. */
  lemma SplitWsToken(t: string)
    requires IsToken(t)
    ensures SplitWs(t) == [t]
  {
    assert LStrip(t) == t;
    TokenLengthOfToken(t, "");
    assert t + "" == t;
    assert t[..|t|] == t;
    assert SplitWs(t[|t|..]) == [];
  }

  /** Leading whitespace does not change the split. */
  lemma SplitWsSpace(rest: string)
    ensures SplitWs(" " + rest) == SplitWs(rest)
  {
    assert (" " + rest)[1..] == rest;
    assert LStrip(" " + rest) == LStrip(rest);
  }

  /** Splitting tokens joined by single spaces gives the tokens back. */
  lemma {:induction false} SplitWsJoin(tokens: seq<string>)
    requires forall i :: 0 <= i < |tokens| ==> IsToken(tokens[i])
    ensures SplitWs(Join(tokens, " ")) == tokens
    decreases |tokens|
  {
    if |tokens| == 1 {
      assert Join(tokens, " ") == tokens[0];
      SplitWsToken(tokens[0]);
    } else if |tokens| > 1 {
      SplitWsJoin(tokens[1..]);
      SplitWsJoinStep(tokens);
    }
  }

  lemma HeadAndTail<T>(s: seq<T>)
    requires |s| > 0
    ensures s == [s[0]] + s[1..]
  {
  }

  /** A token put in front of joined tokens that split back comes back first. */
  lemma SplitWsJoinStep(tokens: seq<string>)
    requires |tokens| > 1 && IsToken(tokens[0])
    requires SplitWs(Join(tokens[1..], " ")) == tokens[1..]
    ensures SplitWs(Join(tokens, " ")) == tokens
  {
    var t, rest := tokens[0], Join(tokens[1..], " ");
    assert Join(tokens, " ") == t + (" " + rest);
    SplitWsCons(t, " " + rest);
    SplitWsSpace(rest);
    HeadAndTail(tokens);
  }

  /** The number of occurrences of `c` (Ruby's `count` with one character). */
  function CountChar(s: string, c: char): (n: nat)
    ensures n <= |s|
  {
    if s == [] then 0 else CountChar(s[..|s| - 1], c) + if s[|s| - 1] == c then 1 else 0
  }

  lemma {:induction false} CountCharAppend(a: string, b: string, c: char)
    ensures CountChar(a + b, c) == CountChar(a, c) + CountChar(b, c)
    decreases |b|
  {
    if b == [] {
      assert a + b == a;
    } else {
      var b' := b[..|b| - 1];
      CountCharAppend(a, b', c);
      assert (a + b)[..|a + b| - 1] == a + b';
      assert (a + b)[|a + b| - 1] == b[|b| - 1];
    }
  }

  // ---------------------------------------------------------------- ordering

  /** Ruby's `uniq` (and lodash's `_.uniq`): the first occurrence of each element, in order. */
  function Uniq(s: seq<string>): (r: seq<string>)
    ensures forall x :: x in r <==> x in s
    ensures forall i, j :: 0 <= i < j < |r| ==> r[i] != r[j]
    ensures |r| <= |s|
  {
    if s == [] then []
    else
      var u := Uniq(s[..|s| - 1]);
      if s[|s| - 1] in u then u else u + [s[|s| - 1]]
  }

  /** A list without repeats is its own `uniq`. */
  lemma {:induction false} UniqOfDistinct(s: seq<string>)
    requires forall i, j :: 0 <= i < j < |s| ==> s[i] != s[j]
    ensures Uniq(s) == s
  {
    if s != [] {
      UniqOfDistinct(s[..|s| - 1]);
      assert s[|s| - 1] !in s[..|s| - 1];
      assert s[..|s| - 1] + [s[|s| - 1]] == s;
    }
  }

  /**
   * JavaScript's `<` on strings: lexicographic order, character by character.
   * The characters here are Unicode scalar values, where JavaScript compares
   * UTF-16 code units; the two orders differ only between a character above
   * U+FFFF and one in U+E000..U+FFFF.
   */
  predicate LexLess(a: string, b: string)
  {
    if b == [] then false
    else if a == [] then true
    else if a[0] != b[0] then a[0] < b[0]
    else LexLess(a[1..], b[1..])
  }

  predicate LexLessEq(a: string, b: string)
  {
    a == b || LexLess(a, b)
  }

  lemma {:induction false} LexLessIrreflexive(a: string)
    ensures !LexLess(a, a)
  {
    if a != [] { LexLessIrreflexive(a[1..]); }
  }

  lemma {:induction false} LexLessTotal(a: string, b: string)
    ensures a == b || LexLess(a, b) || LexLess(b, a)
  {
    if a != [] && b != [] && a[0] == b[0] {
      LexLessTotal(a[1..], b[1..]);
      if a[1..] == b[1..] { assert a == [a[0]] + a[1..] && b == [b[0]] + b[1..]; }
    }
  }

  lemma {:induction false} LexLessTransitive(a: string, b: string, c: string)
    requires LexLess(a, b) && LexLess(b, c)
    ensures LexLess(a, c)
  {
    if a != [] && a[0] == b[0] && b[0] == c[0] {
      LexLessTransitive(a[1..], b[1..], c[1..]);
    }
  }

  lemma LexLessAsymmetric(a: string, b: string)
    requires LexLess(a, b)
    ensures !LexLess(b, a)
  {
    if LexLess(b, a) {
      LexLessTransitive(a, b, a);
      LexLessIrreflexive(a);
    }
  }

  // ---------------------------------------------------------------- numbers

  function DigitValue(c: char): nat
    requires IsDigit(c)
  {
    c as int - '0' as int
  }

  function DigitChar(d: nat): (c: char)
    requires d < 10
    ensures IsDigit(c) && DigitValue(c) == d
  {
    ('0' as int + d) as char
  }

  /** The number written by a string of decimal digits. */
  function DecimalValue(ds: string): nat
    requires AllDigits(ds)
  {
    if ds == [] then 0 else DecimalValue(ds[..|ds| - 1]) * 10 + DigitValue(ds[|ds| - 1])
  }

  /** Decimal notation of a natural number, without leading zeros. */
  function NatToString(n: nat): (s: string)
    ensures |s| >= 1 && AllDigits(s)
    ensures (|s| > 1 ==> s[0] != '0')
  {
    if n < 10 then [DigitChar(n)] else NatToString(n / 10) + [DigitChar(n % 10)]
  }

  /** Ruby's `Integer#to_s` and JavaScript's `toString` on integers. */
  function IntToString(i: int): (s: string)
    ensures |s| >= 1
    ensures i < 0 <==> s[0] == '-'
  {
    if i < 0 then "-" + NatToString(-i) else NatToString(i)
  }

  lemma {:induction false} NatToStringValue(n: nat)
    ensures DecimalValue(NatToString(n)) == n
  {
    if n >= 10 {
      NatToStringValue(n / 10);
      var s := NatToString(n);
      assert s[..|s| - 1] == NatToString(n / 10);
    }
  }

  function Pow10(n: nat): (p: nat)
    ensures p >= 1
  {
    if n == 0 then 1 else 10 * Pow10(n - 1)
  }

  /**
   * Length of the leading digit run that Ruby's numeric conversions accept: a
   * digit, then digits, each optionally preceded by a single underscore.
   */
  function RunLength(s: string): (n: nat)
    ensures n <= |s|
    ensures n == 0 <==> (s == [] || !IsDigit(s[0]))
  {
    if s == [] || !IsDigit(s[0]) then 0
    else if |s| >= 3 && s[1] == '_' && IsDigit(s[2]) then 2 + RunLength(s[2..])
    else 1 + RunLength(s[1..])
  }

  lemma {:induction false} RunLengthOfDigits(s: string)
    requires AllDigits(s)
    ensures RunLength(s) == |s|
  {
    if s != [] { RunLengthOfDigits(s[1..]); }
  }

  /** Split a leading '+' or '-' off; true when it was '-'. */
  function SignOf(t: string): (bool, string)
  {
    if |t| > 0 && (t[0] == '+' || t[0] == '-') then (t[0] == '-', t[1..]) else (false, t)
  }

  /**
   * Ruby's `String#to_i`: skip leading whitespace, take an optional sign and
   * the leading digit run; anything that is not a number reads as 0. It never
   * fails.
   */
  function ToI(s: string): int
  {
    var (neg, u) := SignOf(LStrip(s));
    var v: int := DecimalValue(DigitsIn(u[..RunLength(u)]));
    if neg then -v else v
  }

  /** The leading digit run of a printed natural number is all of it. */
  lemma DigitRunOfNat(n: nat)
    ensures RunLength(NatToString(n)) == |NatToString(n)|
    ensures DecimalValue(DigitsIn(NatToString(n)[..RunLength(NatToString(n))])) == n
    ensures DecimalValue(DigitsIn(NatToString(n))) == n
  {
    var ds := NatToString(n);
    RunLengthOfDigits(ds);
    assert ds[..|ds|] == ds;
    NatToStringValue(n);
  }

  /** A printed integer splits into its sign and its digits. */
  lemma SignOfIntToString(i: int)
    ensures LeadingSpace(IntToString(i)) == 0
    ensures SignOf(IntToString(i)) == (i < 0, NatToString(if i < 0 then -i else i))
  {
    var s := IntToString(i);
    assert !IsSpace(s[0]);
    if i >= 0 {
      var ds := NatToString(i);
      assert IsDigit(ds[0]);
    }
  }

  /** `to_i` reads back what `to_s` printed. */
  lemma ToIOfIntToString(i: int)
    ensures ToI(IntToString(i)) == i
  {
    SignOfIntToString(i);
    DigitRunOfNat(if i < 0 then -i else i);
  }

  /** A digit run ends at a character that is neither a digit nor an underscore. */
  lemma {:induction false} RunLengthThenStop(ds: string, rest: string)
    requires AllDigits(ds)
    requires rest == [] || (!IsDigit(rest[0]) && rest[0] != '_')
    ensures RunLength(ds + rest) == |ds|
  {
    if ds == [] {
      assert ds + rest == rest;
    } else {
      var s := ds + rest;
      assert s[1..] == ds[1..] + rest;
      assert |s| >= 2 ==> s[1] != '_';
      RunLengthThenStop(ds[1..], rest);
    }
  }

  /** `to_i` reads a printed integer back when text other than a digit follows it. */
  lemma ToIOfIntToStringThen(i: int, rest: string)
    requires rest == [] || (!IsDigit(rest[0]) && rest[0] != '_')
    ensures ToI(IntToString(i) + rest) == i
  {
    var n: nat := if i < 0 then -i else i;
    PrintedFront(i, rest);
    DigitsFront(n, rest);
    ToIParts(IntToString(i) + rest, i < 0, NatToString(n) + rest);
  }

  /** A printed integer with text after it is unpadded and has its sign in front. */
  lemma PrintedFront(i: int, rest: string)
    ensures LeadingSpace(IntToString(i) + rest) == 0
    ensures SignOf(IntToString(i) + rest) == (i < 0, NatToString(if i < 0 then -i else i) + rest)
  {
    SignOfIntToString(i);
    LStripThen(IntToString(i), rest);
    SignOfThen(IntToString(i), rest);
  }

  /** The digits of a printed natural number, with text after them, are a run of their own. */
  lemma DigitsFront(n: nat, rest: string)
    requires rest == [] || (!IsDigit(rest[0]) && rest[0] != '_')
    ensures (NatToString(n) + rest)[..RunLength(NatToString(n) + rest)] == NatToString(n)
    ensures DecimalValue(DigitsIn(NatToString(n))) == n
  {
    var ds := NatToString(n);
    RunLengthThenStop(ds, rest);
    assert (ds + rest)[..|ds|] == ds;
    DigitRunOfNat(n);
  }

  /** `to_i` of an unpadded text: the sign, then the value of the leading digit run. */
  lemma ToIParts(s: string, neg: bool, u: string)
    requires LeadingSpace(s) == 0 && SignOf(s) == (neg, u)
    ensures var v: int := DecimalValue(DigitsIn(u[..RunLength(u)])); ToI(s) == if neg then -v else v
  {
  }

  /** Text that does not start with whitespace has nothing for `lstrip` to drop, whatever follows it. */
  lemma LStripThen(a: string, rest: string)
    requires |a| > 0 && !IsSpace(a[0])
    ensures LeadingSpace(a + rest) == 0
  {
    assert (a + rest)[0] == a[0];
  }

  /** The sign comes off the front of a non-empty text whatever follows it. */
  lemma SignOfThen(a: string, rest: string)
    requires |a| > 0
    ensures SignOf(a + rest) == (SignOf(a).0, SignOf(a).1 + rest)
  {
    assert (a + rest)[0] == a[0];
    assert (a + rest)[1..] == a[1..] + rest;
  }

  /** The exponent part of a Ruby float literal, when one follows the mantissa. */
  function ExponentOf(s: string): int
  {
    if |s| >= 2 && (s[0] == 'e' || s[0] == 'E') then
      var (neg, u) := SignOf(s[1..]);
      var v: int := DecimalValue(DigitsIn(u[..RunLength(u)]));
      if neg then -v else v
    else 0
  }

  /** `m` times ten to the power `e`, exactly. */
  function Scale(m: nat, e: int): real
  {
    if e >= 0 then (m * Pow10(e)) as real else m as real / Pow10(-e) as real
  }

  /**
   * Ruby's `String#to_f`, read exactly: skip leading whitespace, an optional
   * sign, then the unsigned number. It never fails.
   */
  function ToF(s: string): real
  {
    var (neg, u) := SignOf(LStrip(s));
    var v := UnsignedToF(u);
    if neg then -v else v
  }

  /**
   * The unsigned part of `to_f`: the integer digits, a fraction when a digit
   * follows the point, and an exponent when the mantissa had digits.
   */
  function UnsignedToF(u: string): real
  {
    var n := RunLength(u);
    var intDigits := DigitsIn(u[..n]);
    var rest := u[n..];
    var hasFrac := |rest| >= 2 && rest[0] == '.' && IsDigit(rest[1]);
    var f := if hasFrac then RunLength(rest[1..]) else 0;
    var fracDigits := if hasFrac then DigitsIn(rest[1..1 + f]) else "";
    var after := if hasFrac then rest[1 + f..] else rest;
    var e := if n > 0 || hasFrac then ExponentOf(after) else 0;
    Scale(DecimalValue(intDigits + fracDigits), e - |fracDigits|)
  }

  /** `to_f` of a printed integer is that integer. */
  lemma ToFOfIntToString(i: int)
    ensures ToF(IntToString(i)) == i as real
  {
    var n := if i < 0 then -i else i;
    SignOfIntToString(i);
    UnsignedToFOfNat(n);
  }

  lemma UnsignedToFOfNat(n: nat)
    ensures UnsignedToF(NatToString(n)) == n as real
  {
    var ds := NatToString(n);
    DigitRunOfNat(n);
    assert ds[RunLength(ds)..] == [];
    var intDigits := DigitsIn(ds[..RunLength(ds)]);
    assert intDigits + "" == intDigits;
    assert ExponentOf([]) == 0;
    assert Scale(n, 0) == n as real;
  }
}
