/**
 * The table of BLAST+ command-line options a user may pass, each limited by
 * an ordered list of constraints, and the check of a YAML map of options
 * against it.
 */
module CliOptions {
  import opened Wrappers
  import opened Text

  // ---------------------------------------------------------------- values and constraints

  /** A value as YAML loads it; `Other` is a list, a map or any other object. */
  datatype Value = Null | Bool(b: bool) | Int(i: int) | Float(f: real) | Str(s: string) | Other

  /** The conversions `value_should_be_of_type` tries: Ruby's `String`, `Integer` and `Float` (alias `Real`). */
  datatype Kind = StringKind | IntegerKind | RealKind

  /** The two patterns the table uses: `/\w+-\w+/` and `/(true)|(false)/`. */
  datatype Pattern = WordDashWord | TrueOrFalse

  datatype Constraint =
    | DependsOn(required: seq<string>)
    | IncompatibleWith(incompatible: seq<string>)
    | OneOf(values: seq<string>)
    /** `lo..hi`, with the texts Ruby prints for `range.min` and `range.max`. */
    | InRange(lo: real, hi: real, loText: string, hiText: string)
    | Gte(threshold: int)
    | Format(pattern: Pattern)
    | OfType(kind: Kind)

  /** The options of one request, in the order YAML gave them; a Ruby hash holds each key once. */
  predicate DistinctKeys(o: seq<(string, Value)>)
  {
    forall i, j :: 0 <= i < j < |o| ==> o[i].0 != o[j].0
  }

  type OptCode = o: seq<(string, Value)> | DistinctKeys(o) witness []

  predicate HasKey(o: OptCode, k: string)
  {
    exists i :: 0 <= i < |o| && o[i].0 == k
  }

  /** `optcode[name]`: the value of the key, `nil` when it is absent. */
  function Lookup(o: seq<(string, Value)>, k: string): (v: Value)
    ensures v != Null ==> exists i :: 0 <= i < |o| && o[i] == (k, v)
  {
    if o == [] then Null else if o[0].0 == k then o[0].1 else Lookup(o[1..], k)
  }

  /** The first of `names` the options hold, or the first they lack. */
  function FirstWith(o: OptCode, names: seq<string>, present: bool): (r: Option<nat>)
    ensures r.Some? ==> r.value < |names| && HasKey(o, names[r.value]) == present
    ensures r.Some? ==> forall j :: 0 <= j < r.value ==> HasKey(o, names[j]) != present
    ensures r.None? ==> forall j :: 0 <= j < |names| ==> HasKey(o, names[j]) != present
  {
    if names == [] then None
    else if HasKey(o, names[0]) == present then Some(0)
    else match FirstWith(o, names[1..], present)
      case None => None
      case Some(j) => Some(j + 1)
  }

  // ---------------------------------------------------------------- Ruby's conversions and patterns

  datatype Radix = Binary | Octal | Decimal | Hexadecimal

  predicate DigitOf(r: Radix, c: char)
  {
    match r
    case Binary => c == '0' || c == '1'
    case Octal => '0' <= c <= '7'
    case Decimal => IsDigit(c)
    case Hexadecimal => IsDigit(c) || 'a' <= c <= 'f' || 'A' <= c <= 'F'
  }

  /** Digits of the radix, where a single `_` may stand between two digits, as Ruby's number parser allows. */
  predicate Underscored(r: Radix, s: string)
  {
    |s| > 0 && DigitOf(r, s[0]) && DigitOf(r, s[|s| - 1])
    && (forall i :: 0 <= i < |s| ==> DigitOf(r, s[i]) || s[i] == '_')
    && !Contains(s, "__")
  }

  /** The text after an optional leading sign. */
  function Unsigned(s: string): (u: string)
    ensures |u| <= |s| && (u != s ==> |s| > 0 && (s[0] == '+' || s[0] == '-'))
  {
    if |s| > 0 && (s[0] == '+' || s[0] == '-') then s[1..] else s
  }

  /** `0` and the letter `x`, `b`, `o` or `d` in either case, followed by digits of that radix. */
  predicate RadixPrefixed(u: string, lower: char, upper: char, r: Radix)
  {
    |u| > 2 && u[0] == '0' && (u[1] == lower || u[1] == upper) && Underscored(r, u[2..])
  }

  /** An unsigned integer as `Integer()` reads it: prefixed hex, binary, octal or decimal, a leading 0 for octal, or plain decimal. */
  predicate UnsignedIntegerText(u: string)
  {
    RadixPrefixed(u, 'x', 'X', Hexadecimal) || RadixPrefixed(u, 'b', 'B', Binary)
    || RadixPrefixed(u, 'o', 'O', Octal) || RadixPrefixed(u, 'd', 'D', Decimal)
    || u == "0"
    || (|u| > 1 && u[0] == '0' && Underscored(Octal, u[1..]))
    || (|u| > 0 && '1' <= u[0] <= '9' && Underscored(Decimal, u))
  }

  /** The strings `Integer()` accepts: surrounding whitespace, an optional sign, then an unsigned integer. */
  predicate IntegerText(s: string)
  {
    UnsignedIntegerText(Unsigned(TrimSpace(s)))
  }

  /** Decimal digits, optionally with a fraction: `.5` and `1.5`, but neither `1.` nor `.`. */
  predicate MantissaText(m: string)
  {
    match IndexOfFrom(m, ".", 0)
    case None => Underscored(Decimal, m)
    case Some(d) => (d == 0 || Underscored(Decimal, m[..d])) && Underscored(Decimal, m[d + 1..])
  }

  /** The position of the first exponent letter, if any. */
  function ExponentMark(u: string): (r: Option<nat>)
    ensures r.Some? ==> r.value < |u| && (u[r.value] == 'e' || u[r.value] == 'E')
    ensures r.Some? ==> forall i :: 0 <= i < r.value ==> u[i] != 'e' && u[i] != 'E'
    ensures r.None? ==> forall i :: 0 <= i < |u| ==> u[i] != 'e' && u[i] != 'E'
  {
    if u == [] then None
    else if u[0] == 'e' || u[0] == 'E' then Some(0)
    else match ExponentMark(u[1..])
      case None => None
      case Some(k) => Some(k + 1)
  }

  /** An unsigned number as `Float()` reads it: a prefixed hexadecimal integer, or a mantissa with an optional signed exponent. */
  predicate UnsignedFloatText(u: string)
  {
    RadixPrefixed(u, 'x', 'X', Hexadecimal)
    || match ExponentMark(u)
       case None => MantissaText(u)
       case Some(e) => MantissaText(u[..e]) && Underscored(Decimal, Unsigned(u[e + 1..]))
  }

  /** The strings `Float()` accepts: surrounding whitespace, an optional sign, then an unsigned number. */
  predicate FloatText(s: string)
  {
    UnsignedFloatText(Unsigned(TrimSpace(s)))
  }

  /** A decimal integer without a leading 0 is read by both `Integer()` and `Float()`. */
  lemma DecimalIsNumber(s: string)
    requires |s| > 0 && AllDigits(s) && s[0] != '0'
    ensures IntegerText(s) && FloatText(s)
  {
    StripUnpadded(s);
    assert Unsigned(s) == s;
    DigitsUnderscored(s);
    DigitsAreMantissa(s);
  }

  lemma DigitsUnderscored(s: string)
    requires |s| > 0 && AllDigits(s)
    ensures Underscored(Decimal, s)
  {
    forall i | 0 <= i < |s|
      ensures DigitOf(Decimal, s[i])
    {
    }
  }

  /** Digits alone, a leading 0 included, are what `Float()` reads as a plain mantissa. */
  lemma DigitsAreMantissa(s: string)
    requires |s| > 0 && AllDigits(s)
    ensures UnsignedFloatText(s)
  {
    DigitsUnderscored(s);
    forall j: nat
      ensures !MatchAt(s, ".", j)
    {
      if j + 1 <= |s| {
        assert s[j..j + 1][0] == s[j];
      }
    }
    assert IndexOfFrom(s, ".", 0).None?;
    assert ExponentMark(s).None?;
  }

  /** A leading 0 makes `Integer()` read octal, so an 8 or 9 after it is refused; `Float()` reads the same text as decimal. */
  lemma LeadingZeroOctal(s: string, i: nat)
    requires |s| > 1 && AllDigits(s) && s[0] == '0' && 0 < i < |s| && s[i] >= '8'
    ensures !IntegerText(s) && FloatText(s)
  {
    StripUnpadded(s);
    assert Unsigned(s) == s;
    NotOctal(s[1..], i - 1);
    assert !RadixPrefixed(s, 'x', 'X', Hexadecimal) && !RadixPrefixed(s, 'b', 'B', Binary)
           && !RadixPrefixed(s, 'o', 'O', Octal) && !RadixPrefixed(s, 'd', 'D', Decimal);
    DigitsAreMantissa(s);
  }

  lemma NotOctal(u: string, k: nat)
    requires k < |u| && (u[k] == '8' || u[k] == '9')
    ensures !Underscored(Octal, u)
  {
    assert !(DigitOf(Octal, u[k]) || u[k] == '_');
  }

  /** `0x` and hexadecimal digits are read by both `Integer()` and `Float()`. */
  lemma HexIsNumber(h: string)
    requires |h| > 0 && forall i :: 0 <= i < |h| ==> DigitOf(Hexadecimal, h[i])
    ensures IntegerText("0x" + h) && FloatText("0x" + h)
  {
    var s := "0x" + h;
    assert s[|s| - 1] == h[|h| - 1];
    StripUnpadded(s);
    assert Unsigned(s) == s;
    assert s[2..] == h;
    assert RadixPrefixed(s, 'x', 'X', Hexadecimal);
  }

  /** `send(kind, value)` returns rather than raising `ArgumentError` or `TypeError`. */
  predicate Converts(kind: Kind, v: Value)
  {
    match kind
    case StringKind => true
    case IntegerKind => v.Int? || v.Float? || (v.Str? && IntegerText(v.s))
    case RealKind => v.Int? || v.Float? || (v.Str? && FloatText(v.s))
  }

  function KindName(kind: Kind): string
  {
    match kind
    case StringKind => "String"
    case IntegerKind => "Integer"
    case RealKind => "Real"
  }

  /** `\w+-\w+` somewhere: a dash with a word character on each side. */
  predicate WordDashWordIn(s: string)
  {
    exists i :: 0 < i < |s| - 1 && s[i] == '-' && IsWordChar(s[i - 1]) && IsWordChar(s[i + 1])
  }

  predicate Matches(p: Pattern, s: string)
  {
    match p
    case WordDashWord => WordDashWordIn(s)
    case TrueOrFalse => Contains(s, "true") || Contains(s, "false")
  }

  /** `Regexp#to_s` of the pattern, as the message prints it. */
  function PatternText(p: Pattern): string
  {
    match p
    case WordDashWord => "(?-mix:\\w+-\\w+)"
    case TrueOrFalse => "(?-mix:(true)|(false))"
  }

  // ---------------------------------------------------------------- one constraint

  /** How checking a constraint ends: it holds, it fails with a message, or Ruby raises outside the check. */
  datatype Outcome = Holds | Fails(message: string) | Raises(error: string)

  /** The lambda each constraint adds, for the option `name` and the request's options. */
  function Check(name: string, c: Constraint, o: OptCode): (r: Outcome)
    ensures r.Raises? ==> c.Gte? || c.Format?
    ensures c.DependsOn? ==> (r == Holds <==> forall j :: 0 <= j < |c.required| ==> HasKey(o, c.required[j]))
    ensures c.IncompatibleWith? ==> (r == Holds <==> forall j :: 0 <= j < |c.incompatible| ==> !HasKey(o, c.incompatible[j]))
    ensures c.OneOf? ==> (r == Holds <==> Lookup(o, name).Str? && Lookup(o, name).s in c.values)
    ensures c.Gte? ==> (r == Holds <==> (Lookup(o, name).Int? && Lookup(o, name).i >= c.threshold)
                                         || (Lookup(o, name).Float? && Lookup(o, name).f >= c.threshold as real))
    ensures c.OfType? ==> (r == Holds <==> Converts(c.kind, Lookup(o, name)))
    ensures c.Format? ==> (r == Holds <==> Lookup(o, name).Str? && Matches(c.pattern, Lookup(o, name).s))
  {
    var v := Lookup(o, name);
    match c
    case DependsOn(required) =>
      (match FirstWith(o, required, false)
       case None => Holds
       case Some(j) => Fails(RequiresMessage(name, required[j])))
    case IncompatibleWith(incompatible) =>
      (match FirstWith(o, incompatible, true)
       case None => Holds
       case Some(j) => Fails(IncompatibleMessage(name, incompatible[j])))
    case OneOf(values) =>
      if v.Str? && v.s in values then Holds
      else Fails("'" + name + "' should be one of: " + Join(values, ", ") + ".")
    case InRange(lo, hi, loText, hiText) =>
      var inside := match v
        case Int(i) => lo <= i as real <= hi
        case Float(f) => lo <= f <= hi
        case _ => false;
      if inside then Holds else Fails("'" + name + "' should be within " + loText + " and " + hiText + ".")
    case Gte(t) =>
      (match v
       case Int(i) => if i >= t then Holds else Fails(GteMessage(name, t))
       case Float(f) => if f >= t as real then Holds else Fails(GteMessage(name, t))
       case Str(_) => Raises("comparison of String with " + IntToString(t) + " failed")
       case _ => Raises("undefined method `>='"))
    case Format(p) => FormatAsWritten(name, p, v)
    case OfType(kind) =>
      if Converts(kind, v) then Holds else Fails(name + " takes a " + KindName(kind) + " value.")
  }

  function FormatMessage(name: string, p: Pattern): string
  {
    name + " should be of format " + PatternText(p) + "."
  }

  /**
   * `value_should_be_of_format` as written: `Regexp#match` finds nothing in
   * `nil`, and raises `TypeError` on any value that is not a string, a
   * YAML `true` or `false` included.
   */
  function FormatAsWritten(name: string, p: Pattern, v: Value): (r: Outcome)
    ensures r == Holds <==> v.Str? && Matches(p, v.s)
    ensures r.Raises? <==> !v.Str? && !v.Null?
  {
    match v
    case Null => Fails(FormatMessage(name, p))
    case Str(s) => if Matches(p, s) then Holds else Fails(FormatMessage(name, p))
    case _ => Raises("no implicit conversion into String")
  }

  function BoolText(b: bool): string
  {
    if b then "true" else "false"
  }

  /** The same check, with a YAML Boolean matched by its text, as the `<Boolean>` option `soft_masking` needs. */
  function FormatCorrected(name: string, p: Pattern, v: Value): (r: Outcome)
    ensures r == Holds <==> (v.Str? && Matches(p, v.s)) || (v.Bool? && Matches(p, BoolText(v.b)))
  {
    match v
    case Bool(b) => if Matches(p, BoolText(b)) then Holds else Fails(FormatMessage(name, p))
    case _ => FormatAsWritten(name, p, v)
  }

  /** The correction changes only what used to raise. */
  lemma FormatCorrectionConservative(name: string, p: Pattern, v: Value)
    ensures !FormatAsWritten(name, p, v).Raises? ==> FormatCorrected(name, p, v) == FormatAsWritten(name, p, v)
    ensures FormatCorrected(name, p, v).Raises? ==> FormatAsWritten(name, p, v).Raises?
    ensures FormatCorrected(name, p, v).Raises? <==> !v.Str? && !v.Null? && !v.Bool?
  {
  }

  /** As written, `soft_masking: true` or `soft_masking: false` ends validation with an uncaught `TypeError`. */
  lemma SoftMaskingBooleanRaises(b: bool)
    ensures FormatAsWritten("soft_masking", TrueOrFalse, Bool(b)).Raises?
  {
  }

  function RequiresMessage(name: string, other: string): string
  {
    "Option '" + name + "' requires option '" + other + "' to work with."
  }

  function IncompatibleMessage(name: string, other: string): string
  {
    "Option '" + name + "' is incompatible with option '" + other + "'."
  }

  function GteMessage(name: string, t: int): string
  {
    "'" + name + "' should be greater than or equal to " + IntToString(t) + "."
  }

  /** `Option#validate`: the constraints in the order they were declared, stopping at the first that does not hold. */
  function CheckAll(name: string, cs: seq<Constraint>, o: OptCode): (r: Outcome)
    ensures r == Holds <==> forall j :: 0 <= j < |cs| ==> Check(name, cs[j], o) == Holds
    ensures r != Holds ==> exists j :: 0 <= j < |cs| && r == Check(name, cs[j], o)
                                      && forall i :: 0 <= i < j ==> Check(name, cs[i], o) == Holds
  {
    if cs == [] then Holds
    else
      var r := Check(name, cs[0], o);
      if r != Holds then r
      else
        var rest := CheckAll(name, cs[1..], o);
        assert forall j :: 1 <= j < |cs| ==> cs[j] == cs[1..][j - 1];
        rest
  }

  // ---------------------------------------------------------------- the whole request

  datatype Verdict = Valid | Invalid(message: string)

  function NotSupported(name: string): string
  {
    "Option " + name + " not supported."
  }

  /** Every option is in the table and every constraint of each holds; this does not depend on the order. */
  predicate Acceptable(table: map<string, seq<Constraint>>, o: OptCode)
  {
    forall i :: 0 <= i < |o| ==> o[i].0 in table && CheckAll(o[i].0, table[o[i].0], o) == Holds
  }

  /**
   * `validate` on already-parsed options, from the `k`-th on: an unknown option
   * or a failed constraint is reported as the first found; an error that is
   * not one of the checks' own is raised as it is.
   */
  function ValidateFrom(table: map<string, seq<Constraint>>, o: OptCode, k: nat): (r: Result<Verdict>)
    requires k <= |o|
    ensures r == Ok(Valid) <==> forall i :: k <= i < |o| ==> o[i].0 in table && CheckAll(o[i].0, table[o[i].0], o) == Holds
    decreases |o| - k
  {
    if k == |o| then Ok(Valid)
    else
      var (name, _) := o[k];
      if name !in table then Ok(Invalid(NotSupported(name)))
      else match CheckAll(name, table[name], o)
        case Holds => ValidateFrom(table, o, k + 1)
        case Fails(m) => Ok(Invalid(m))
        case Raises(e) => Err(e)
  }

  function ValidateOptions(table: map<string, seq<Constraint>>, o: OptCode): (r: Result<Verdict>)
    ensures r == Ok(Valid) <==> Acceptable(table, o)
  {
    ValidateFrom(table, o, 0)
  }

  /** Two requests with the same options in another order are both valid or both not. */
  lemma ValidityIgnoresOrder(table: map<string, seq<Constraint>>, o: OptCode, o': OptCode)
    requires forall p :: p in o <==> p in o'
    ensures ValidateOptions(table, o) == Ok(Valid) <==> ValidateOptions(table, o') == Ok(Valid)
  {
    SameKeys(o, o');
    SameKeys(o', o);
    SameLookups(o, o');
    if Acceptable(table, o) {
      forall i | 0 <= i < |o'|
        ensures o'[i].0 in table && CheckAll(o'[i].0, table[o'[i].0], o') == Holds
      {
        assert o'[i] in o';
        var j :| 0 <= j < |o| && o[j] == o'[i];
        CheckAllSameOptions(o[j].0, table[o[j].0], o, o');
      }
    }
    if Acceptable(table, o') {
      forall i | 0 <= i < |o|
        ensures o[i].0 in table && CheckAll(o[i].0, table[o[i].0], o) == Holds
      {
        assert o[i] in o;
        var j :| 0 <= j < |o'| && o'[j] == o[i];
        CheckAllSameOptions(o[i].0, table[o[i].0], o, o');
      }
    }
  }

  lemma SameKeys(o: OptCode, o': OptCode)
    requires forall p :: p in o ==> p in o'
    ensures forall k :: HasKey(o, k) ==> HasKey(o', k)
  {
    forall k | HasKey(o, k)
      ensures HasKey(o', k)
    {
      var i :| 0 <= i < |o| && o[i].0 == k;
      assert o[i] in o;
      var j :| 0 <= j < |o'| && o'[j] == o[i];
    }
  }

  lemma {:induction false} LookupFinds(o: OptCode, i: nat)
    requires i < |o|
    ensures Lookup(o, o[i].0) == o[i].1
  {
    if i > 0 {
      assert o[0].0 != o[i].0;
      var o1: OptCode := o[1..];
      assert o1[i - 1] == o[i];
      LookupFinds(o1, i - 1);
    }
  }

  lemma {:induction false} LookupMisses(o: OptCode, k: string)
    requires !HasKey(o, k)
    ensures Lookup(o, k) == Null
  {
    if o != [] {
      assert o[0].0 != k;
      var o1: OptCode := o[1..];
      assert !HasKey(o1, k) by {
        forall i | 0 <= i < |o1|
          ensures o1[i].0 != k
        {
          assert o1[i] == o[i + 1];
        }
      }
      LookupMisses(o1, k);
    }
  }

  lemma SameLookups(o: OptCode, o': OptCode)
    requires forall p :: p in o <==> p in o'
    ensures forall k :: Lookup(o, k) == Lookup(o', k)
  {
    SameKeys(o, o');
    SameKeys(o', o);
    forall k
      ensures Lookup(o, k) == Lookup(o', k)
    {
      if HasKey(o, k) {
        var i :| 0 <= i < |o| && o[i].0 == k;
        assert o[i] in o;
        var j :| 0 <= j < |o'| && o'[j] == o[i];
        LookupFinds(o, i);
        LookupFinds(o', j);
      } else {
        LookupMisses(o, k);
        LookupMisses(o', k);
      }
    }
  }

  lemma CheckAllSameOptions(name: string, cs: seq<Constraint>, o: OptCode, o': OptCode)
    requires forall k :: HasKey(o, k) <==> HasKey(o', k)
    requires forall k :: Lookup(o, k) == Lookup(o', k)
    ensures CheckAll(name, cs, o) == CheckAll(name, cs, o')
  {
    forall names: seq<string>, present: bool
      ensures FirstWith(o, names, present) == FirstWith(o', names, present)
    {
      FirstWithSame(o, o', names, present);
    }
    AllChecksSame(name, cs, o, o');
  }

  lemma {:induction false} AllChecksSame(name: string, cs: seq<Constraint>, o: OptCode, o': OptCode)
    requires forall k :: Lookup(o, k) == Lookup(o', k)
    requires forall names, present :: FirstWith(o, names, present) == FirstWith(o', names, present)
    ensures CheckAll(name, cs, o) == CheckAll(name, cs, o')
  {
    if cs != [] {
      CheckSame(name, cs[0], o, o');
      AllChecksSame(name, cs[1..], o, o');
    }
  }

  lemma CheckSame(name: string, c: Constraint, o: OptCode, o': OptCode)
    requires forall k :: Lookup(o, k) == Lookup(o', k)
    requires forall names, present :: FirstWith(o, names, present) == FirstWith(o', names, present)
    ensures Check(name, c, o) == Check(name, c, o')
  {
    assert Lookup(o, name) == Lookup(o', name);
    match c
    case DependsOn(required) =>
      assert FirstWith(o, required, false) == FirstWith(o', required, false);
    case IncompatibleWith(incompatible) =>
      assert FirstWith(o, incompatible, true) == FirstWith(o', incompatible, true);
    case _ =>
  }

  lemma {:induction false} FirstWithSame(o: OptCode, o': OptCode, names: seq<string>, present: bool)
    requires forall k :: HasKey(o, k) <==> HasKey(o', k)
    ensures FirstWith(o, names, present) == FirstWith(o', names, present)
  {
    if names != [] {
      FirstWithSame(o, o', names[1..], present);
    }
  }

  // ---------------------------------------------------------------- parsing

  /**
   * What `YAML.load` gives: a map, `nil`, `false`, another value, or a syntax
   * error. `rescued` says whether the error's class is one that
   * `rescue ArgumentError, SyntaxError` names: Syck raises `ArgumentError`, and
   * Psych 1.x raises a `Psych::SyntaxError` derived from `::SyntaxError`; from
   * Psych 2.0 on, `Psych::SyntaxError` derives from `RuntimeError` and is not
   * rescued.
   */
  datatype Yaml = YMap(entries: OptCode) | YNull | YFalse | YScalar | YSyntaxError(rescued: bool, message: string)

  const NotAMap: string := "Options should be specified as a YAML map."

  /** How `parse` ends: options, its own `ParseError`, or an exception it lets through. */
  datatype Parsed = Parsed(optcode: OptCode) | ParseError(message: string) | Uncaught(error: string)

  /** `parse`: nothing at all counts as no options; anything but a map is refused. */
  function Parse(y: Yaml): (r: Parsed)
    ensures r.Parsed? <==> y.YMap? || y.YNull? || y.YFalse?
    ensures (y.YNull? || y.YFalse?) ==> r == Parsed([])
    ensures r.ParseError? ==> r.message == NotAMap
    ensures r.Uncaught? <==> y.YSyntaxError? && !y.rescued
  {
    match y
    case YMap(o) => Parsed(o)
    case YNull => Parsed([])
    case YFalse => Parsed([])
    case YScalar => ParseError(NotAMap)
    case YSyntaxError(rescued, message) => if rescued then ParseError(NotAMap) else Uncaught(message)
  }

  /**
   * `validate`: a `ParseError` is reported like a failed constraint; an
   * exception `parse` lets through is not rescued here either.
   */
  function ValidateYaml(table: map<string, seq<Constraint>>, y: Yaml): (r: Result<Verdict>)
    ensures r == Ok(Valid) <==> Parse(y).Parsed? && Acceptable(table, Parse(y).optcode)
    ensures Parse(y).ParseError? ==> r == Ok(Invalid(NotAMap))
    ensures Parse(y).Uncaught? ==> r == Err(Parse(y).error)
  {
    match Parse(y)
    case Parsed(o) => ValidateOptions(table, o)
    case ParseError(e) => Ok(Invalid(e))
    case Uncaught(e) => Err(e)
  }

  /**
   * A malformed document is reported as not a map when the parser's error is
   * rescued, and escapes `validate` as an error when it is not.
   */
  lemma SyntaxErrorOutcome(table: map<string, seq<Constraint>>, m: string)
    ensures ValidateYaml(table, YSyntaxError(true, m)) == Ok(Invalid(NotAMap))
    ensures ValidateYaml(table, YSyntaxError(false, m)) == Err(m)
  {
  }

  // ---------------------------------------------------------------- the table

  /** The table of options: registering a name again replaces its constraints. */
  class OptionTable {
    var options: map<string, seq<Constraint>>

    constructor()
      ensures options == map[]
    {
      options := map[];
    }

    /** `option`: adds the option, or replaces the one of the same name. */
    method Register(name: string, constraints: seq<Constraint>)
      modifies this
      ensures options == old(options)[name := constraints]
    {
      options := options[name := constraints];
    }

    /** `validate`, as the loop over the options that returns at the first one not supported or not sound. */
    method Validate(y: Yaml) returns (r: Result<Verdict>)
      ensures r == ValidateYaml(options, y)
    {
      var parsed := Parse(y);
      if parsed.ParseError? {
        return Ok(Invalid(parsed.message));
      } else if parsed.Uncaught? {
        return Err(parsed.error);
      }
      var optcode := parsed.optcode;
      var k := 0;
      while k < |optcode|
        invariant k <= |optcode|
        invariant ValidateFrom(options, optcode, 0) == ValidateFrom(options, optcode, k)
      {
        var (name, _) := optcode[k];
        if name !in options {
          return Ok(Invalid(NotSupported(name)));
        }
        var outcome := CheckAll(name, options[name], optcode);
        match outcome {
          case Holds =>
          case Fails(m) => return Ok(Invalid(m));
          case Raises(e) => return Err(e);
        }
        k := k + 1;
      }
      return Ok(Valid);
    }
  }

  /** The constraint shared by the plain counts: an integer, zero or more. */
  const NonNegativeInteger: seq<Constraint> := [OfType(IntegerKind), Gte(0)]

  /** The options SequenceServer lets users pass to BLAST+, with their constraints in declaration order. */
  const Table: map<string, seq<Constraint>> := map[
    "query_loc" := [OfType(StringKind), Format(WordDashWord)],
    "task" := [OfType(StringKind), OneOf(["blastp", "blastp-short"])],
    "evalue" := [OfType(RealKind)],
    "word_size" := [OfType(IntegerKind), Gte(2)],
    "gapopen" := [OfType(IntegerKind)],
    "gapextend" := [OfType(IntegerKind)],
    "matrix" := [OfType(StringKind), OneOf(["BLOSUM80", "BLOSUM62", "BLOSUM50", "BLOSUM45", "PAM250", "BLOSUM90", "PAM30", "PAM70"])],
    "threshold" := [OfType(RealKind), Gte(0)],
    "comp_based_stats" := [OfType(StringKind)],
    "subject_loc" := [IncompatibleWith(["db", "gilist", "seqidlist", "negative_gilist", "db_soft_mask", "db_hard_mask", "remote"]),
                      OfType(StringKind), Format(WordDashWord)],
    "show_gis" := [],
    "num_descriptions" := NonNegativeInteger,
    "num_alignments" := NonNegativeInteger,
    "seg" := [OfType(StringKind)],
    "soft_masking" := [Format(TrueOrFalse)],
    "lcase_masking" := [],
    "gilist" := [IncompatibleWith(["negative_gilist", "seqidlist", "remote", "subject", "subject_loc"]), OfType(StringKind)],
    "seqidlist" := [IncompatibleWith(["gilist", "negative_gilist", "remote", "subject"]), OfType(StringKind)],
    "negative_gilist" := [IncompatibleWith(["gilist", "seqidlist", "remote", "subject", "subject_loc"]), OfType(StringKind)],
    "entrez_query" := [DependsOn(["remote"]), OfType(StringKind)],
    "db_soft_mask" := [IncompatibleWith(["db_hard_mask", "subject", "subject_loc"]), OfType(StringKind)],
    "db_hard_mask" := [IncompatibleWith(["db_soft_mask", "subject", "subject_loc"]), OfType(StringKind)],
    "culling_limit" := [IncompatibleWith(["best_hit_overhang", "best_hit_score_edge"]), OfType(IntegerKind), Gte(0)],
    "best_hit_overhang" := [IncompatibleWith(["culling_limit"]), OfType(RealKind), InRange(0.0, 0.5, "0", "0.5")],
    "best_hit_score_edge" := [IncompatibleWith(["culling_limit"]), OfType(RealKind), InRange(0.0, 0.5, "0", "0.5")],
    "max_target_seqs" := [OfType(IntegerKind), Gte(1)],
    "dbsize" := [OfType(IntegerKind)],
    "searchsp" := NonNegativeInteger,
    "xdrop_ungap" := [OfType(RealKind)],
    "xdrop_gap" := [OfType(RealKind)],
    "xdrop_gap_final" := [OfType(RealKind)],
    "window_size" := NonNegativeInteger,
    "ungapped" := [],
    "parse_deflines" := [],
    "remote" := [IncompatibleWith(["gilist", "seqidlist", "negative_gilist", "subject_loc", "num_threads"])],
    "use_sw_tback" := []]

  /** The options the application sets itself, or that make no sense over the web. */
  const Banned: set<string> := {"h", "help", "version", "query", "db", "out", "subject", "outfmt", "html",
                                "import_search_strategy", "export_search_strategy"}

  /** The verdict when the first option is unknown or fails one of its constraints. */
  lemma FirstOptionDecides(table: map<string, seq<Constraint>>, o: OptCode, v: Verdict)
    requires o != []
    requires o[0].0 in table ==> CheckAll(o[0].0, table[o[0].0], o).Fails?
    requires v == (if o[0].0 !in table then Invalid(NotSupported(o[0].0))
                   else Invalid(CheckAll(o[0].0, table[o[0].0], o).message))
    ensures ValidateYaml(table, YMap(o)) == Ok(v)
  {
    assert ValidateFrom(table, o, 0) == Ok(v);
  }

  lemma BannedUnknown(o: string)
    requires o in Banned
    ensures o !in Table
  {
    if o in {"h", "help"} {
      HelpUnknown(o);
    } else if o in {"version", "query"} {
      VersionAndQueryUnknown(o);
    } else if o in {"db", "out"} {
      DatabaseAndOutUnknown(o);
    } else if o in {"subject", "outfmt"} {
      SubjectAndFormatUnknown(o);
    } else if o == "html" {
      HtmlUnknown();
    } else {
      StrategyUnknown(o);
    }
  }

  lemma HelpUnknown(o: string)
    requires o in {"h", "help"}
    ensures o !in Table
  {
  }

  lemma VersionAndQueryUnknown(o: string)
    requires o in {"version", "query"}
    ensures o !in Table
  {
  }

  lemma DatabaseAndOutUnknown(o: string)
    requires o in {"db", "out"}
    ensures o !in Table
  {
  }

  lemma SubjectAndFormatUnknown(o: string)
    requires o in {"subject", "outfmt"}
    ensures o !in Table
  {
  }

  lemma HtmlUnknown()
    ensures "html" !in Table
  {
  }

  lemma StrategyUnknown(o: string)
    requires o in {"import_search_strategy", "export_search_strategy"}
    ensures o !in Table
  {
  }

  /** None of them is in the table, so each is refused as not supported. */
  lemma BannedRefused(o: string)
    requires o in Banned
    ensures ValidateYaml(Table, YMap([(o, Null)])) == Ok(Invalid(NotSupported(o)))
  {
    BannedUnknown(o);
    FirstOptionDecides(Table, [(o, Null)], Invalid(NotSupported(o)));
  }

  const CullingLimit: seq<Constraint> := [IncompatibleWith(["best_hit_overhang", "best_hit_score_edge"]), OfType(IntegerKind), Gte(0)]

  lemma CullingLimitListed()
    ensures "culling_limit" in Table && Table["culling_limit"] == CullingLimit
  {
  }

  /** `culling_limit` with `best_hit_overhang` is refused. */
  lemma CullingExcludesOverhang()
    ensures ValidateYaml(Table, YMap([("culling_limit", Int(1)), ("best_hit_overhang", Float(0.2))]))
            == Ok(Invalid(IncompatibleMessage("culling_limit", "best_hit_overhang")))
  {
    var o: OptCode := [("culling_limit", Int(1)), ("best_hit_overhang", Float(0.2))];
    assert o[1].0 == "best_hit_overhang";
    assert FirstWith(o, ["best_hit_overhang", "best_hit_score_edge"], true) == Some(0);
    assert CheckAll("culling_limit", CullingLimit, o) == Check("culling_limit", CullingLimit[0], o);
    CullingLimitListed();
    FirstOptionDecides(Table, o, Invalid(IncompatibleMessage("culling_limit", "best_hit_overhang")));
  }

  const SubjectLoc: seq<Constraint> :=
    [IncompatibleWith(["db", "gilist", "seqidlist", "negative_gilist", "db_soft_mask", "db_hard_mask", "remote"]),
     OfType(StringKind), Format(WordDashWord)]

  lemma SubjectLocListed()
    ensures "subject_loc" in Table && Table["subject_loc"] == SubjectLoc
  {
  }

  /** `subject_loc` with `gilist` is refused. */
  lemma SubjectLocExcludesGilist()
    ensures ValidateYaml(Table, YMap([("subject_loc", Str("ab")), ("gilist", Int(1234))]))
            == Ok(Invalid(IncompatibleMessage("subject_loc", "gilist")))
  {
    var o: OptCode := [("subject_loc", Str("ab")), ("gilist", Int(1234))];
    GilistFirstClash(o);
    assert CheckAll("subject_loc", SubjectLoc, o) == Check("subject_loc", SubjectLoc[0], o);
    SubjectLocListed();
    FirstOptionDecides(Table, o, Invalid(IncompatibleMessage("subject_loc", "gilist")));
  }

  lemma GilistFirstClash(o: OptCode)
    requires o == [("subject_loc", Str("ab")), ("gilist", Int(1234))]
    ensures FirstWith(o, SubjectLoc[0].incompatible, true) == Some(1)
  {
    var names := SubjectLoc[0].incompatible;
    assert !HasKey(o, "db");
    assert o[1].0 == "gilist";
    assert FirstWith(o, names[1..], true) == Some(0);
  }

  const EntrezQuery: seq<Constraint> := [DependsOn(["remote"]), OfType(StringKind)]
  const Remote: seq<Constraint> := [IncompatibleWith(["gilist", "seqidlist", "negative_gilist", "subject_loc", "num_threads"])]

  lemma EntrezQueryAndRemoteListed()
    ensures "entrez_query" in Table && Table["entrez_query"] == EntrezQuery
    ensures "remote" in Table && Table["remote"] == Remote
  {
  }

  /** `entrez_query` alone is refused: it needs `remote`. */
  lemma EntrezQueryNeedsRemote()
    ensures ValidateYaml(Table, YMap([("entrez_query", Str("ab"))]))
            == Ok(Invalid(RequiresMessage("entrez_query", "remote")))
  {
    EntrezQueryAndRemoteListed();
    var o: OptCode := [("entrez_query", Str("ab"))];
    assert !HasKey(o, "remote");
    assert CheckAll("entrez_query", EntrezQuery, o) == Check("entrez_query", EntrezQuery[0], o);
    FirstOptionDecides(Table, o, Invalid(RequiresMessage("entrez_query", "remote")));
  }

  /** With `remote`, `entrez_query` passes. */
  lemma EntrezQueryWithRemote()
    ensures ValidateYaml(Table, YMap([("entrez_query", Str("ab")), ("remote", Null)])) == Ok(Valid)
  {
    EntrezQueryAndRemoteListed();
    var o: OptCode := [("entrez_query", Str("ab")), ("remote", Null)];
    EntrezWithRemote(o);
    TwoOptionsAccepted(Table, o);
  }

  lemma TwoOptionsAccepted(table: map<string, seq<Constraint>>, o: OptCode)
    requires |o| == 2
    requires forall i :: 0 <= i < 2 ==> o[i].0 in table && CheckAll(o[i].0, table[o[i].0], o) == Holds
    ensures ValidateYaml(table, YMap(o)) == Ok(Valid)
  {
  }

  lemma EntrezWithRemote(o: OptCode)
    requires o == [("entrez_query", Str("ab")), ("remote", Null)]
    ensures CheckAll("entrez_query", EntrezQuery, o) == Holds
    ensures CheckAll("remote", Remote, o) == Holds
  {
    assert o[1].0 == "remote";
    var names := Remote[0].incompatible;
    assert forall j :: 0 <= j < |names| ==> !HasKey(o, names[j]);
  }

  const SoftMasking: seq<Constraint> := [Format(TrueOrFalse)]

  lemma SoftMaskingListed()
    ensures "soft_masking" in Table && Table["soft_masking"] == SoftMasking
  {
  }

  /** As written, a request whose only option is `soft_masking: true` or `false` raises instead of being judged. */
  lemma SoftMaskingBooleanFailsValidation(b: bool)
    ensures ValidateYaml(Table, YMap([("soft_masking", Bool(b))])).Err?
  {
    SoftMaskingListed();
    var o: OptCode := [("soft_masking", Bool(b))];
    assert Parse(YMap(o)) == Parsed(o);
    assert Lookup(o, "soft_masking") == Bool(b);
    assert Check("soft_masking", SoftMasking[0], o).Raises?;
    assert CheckAll("soft_masking", SoftMasking, o).Raises?;
  }

  /** With the correction, either Boolean passes the `soft_masking` format check. */
  lemma SoftMaskingBooleanAccepted(b: bool)
    ensures FormatCorrected("soft_masking", TrueOrFalse, Bool(b)) == Holds
  {
    assert Contains(BoolText(b), BoolText(b)) by {
      assert BoolText(b)[0..|BoolText(b)|] == BoolText(b);
    }
  }
}
