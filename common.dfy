/** Option type shared by every module of the model. */
module Wrappers {

  datatype Option<+T> = None | Some(value: T) {

    /** Python's `d.get(k, default)` once the lookup has been made. */
    function GetOr(default: T): T {
      match this
      case Some(v) => v
      case None => default
    }
  }
}

/**
 * The few pieces of Python's `str` and integer formatting that the bot relies on,
 * written over `seq<char>`.  Digits and whitespace are the ASCII ones only.
 */
module Strings {
  import opened Wrappers

  predicate IsDigit(c: char) {
    '0' <= c <= '9'
  }

  predicate AllDigits(s: string) {
    forall i :: 0 <= i < |s| ==> IsDigit(s[i])
  }

  /** `str.isdigit()`: non-empty and every character a digit. */
  predicate IsDigitString(s: string) {
    |s| > 0 && AllDigits(s)
  }

  function DigitValue(c: char): (d: nat)
    requires IsDigit(c)
    ensures d < 10
  {
    (c as int) - ('0' as int)
  }

  function DigitChar(d: nat): (c: char)
    requires d < 10
    ensures IsDigit(c) && DigitValue(c) == d
  {
    (('0' as int) + d) as char
  }

  /** The number a string of digits denotes, most significant digit first. */
  function DecimalValue(s: string): nat
    requires AllDigits(s)
  {
    if s == [] then 0 else 10 * DecimalValue(s[..|s| - 1]) + DigitValue(s[|s| - 1])
  }

  /** `str(n)` for a non-negative integer. */
  function NatToString(n: nat): (r: string)
    ensures IsDigitString(r)
    ensures |r| == 1 <==> n < 10
  {
    if n < 10 then [DigitChar(n)] else NatToString(n / 10) + [DigitChar(n % 10)]
  }

  /** `str(i)` for any integer. */
  function IntToString(i: int): (r: string)
    ensures |r| > 0
    ensures i >= 0 <==> IsDigitString(r)
  {
    assert i < 0 ==> ("-" + NatToString(-i))[0] == '-';
    if i < 0 then "-" + NatToString(-i) else NatToString(i)
  }

  /** `int(s)` restricted to plain ASCII digit strings; anything else is the ValueError path. */
  function ParseInt(s: string): (r: Option<int>)
    ensures r.Some? <==> IsDigitString(s)
    ensures r.Some? ==> r.value >= 0
  {
    if IsDigitString(s) then Some(DecimalValue(s)) else None
  }

  lemma {:induction false} DecimalOfNatToString(n: nat)
    ensures DecimalValue(NatToString(n)) == n
  {
    var r := NatToString(n);
    if n >= 10 {
      DecimalOfNatToString(n / 10);
      assert r[..|r| - 1] == NatToString(n / 10);
    }
  }

  /** Printing a number and parsing it back gives the number. */
  lemma ParseIntOfNatToString(n: nat)
    ensures ParseInt(NatToString(n)) == Some(n)
  {
    DecimalOfNatToString(n);
  }

  predicate StartsWith(s: string, p: string) {
    |p| <= |s| && s[..|p|] == p
  }

  /** A text starts with anything it was built on. */
  lemma StartsWithConcat(p: string, s: string)
    ensures StartsWith(p + s, p)
  {
    assert (p + s)[..|p|] == p;
  }

  /** A text that differs from `p` at a position within both does not start with `p`. */
  lemma NotStartsWithAt(s: string, p: string, i: nat)
    requires i < |p| && i < |s| && s[i] != p[i]
    ensures !StartsWith(s, p)
  {
    if |p| <= |s| { assert s[..|p|][i] == s[i]; }
  }

  /** True when `p` occurs somewhere in `s`. */
  predicate Occurs(s: string, p: string)
    requires |p| > 0
    decreases |s|
  {
    |p| <= |s| && (s[..|p|] == p || Occurs(s[1..], p))
  }

  /** A text lacking some character of `p` has no occurrence of `p`. */
  lemma {:induction false} AbsentChar(s: string, p: string, k: nat)
    requires k < |p| && forall i :: 0 <= i < |s| ==> s[i] != p[k]
    ensures !Occurs(s, p)
    decreases |s|
  {
    if |p| <= |s| {
      assert s[..|p|][k] != p[k];
      AbsentChar(s[1..], p, k);
    }
  }

  /**
   * `s.replace(p, "")`: scanning from the left, every non-overlapping
   * occurrence of `p` is dropped.
   */
  function RemoveAll(s: string, p: string): (r: string)
    requires |p| > 0
    ensures |r| <= |s|
    decreases |s|
  {
    if |s| < |p| then s
    else if s[..|p|] == p then RemoveAll(s[|p|..], p)
    else [s[0]] + RemoveAll(s[1..], p)
  }

  lemma {:induction false} RemoveAllAbsent(s: string, p: string)
    requires |p| > 0 && !Occurs(s, p)
    ensures RemoveAll(s, p) == s
    decreases |s|
  {
    if |s| >= |p| {
      RemoveAllAbsent(s[1..], p);
      assert s == [s[0]] + s[1..];
    }
  }

  /** A leading occurrence of the prefix is removed like every other. */
  lemma RemoveAllPrefixed(p: string, s: string)
    requires |p| > 0
    ensures RemoveAll(p + s, p) == RemoveAll(s, p)
  {
    assert (p + s)[..|p|] == p;
    assert (p + s)[|p|..] == s;
  }

  /** Stripping a prefix from a value that does not contain it again leaves the value. */
  lemma RemoveAllPrefixOnce(p: string, s: string)
    requires |p| > 0 && !Occurs(s, p)
    ensures RemoveAll(p + s, p) == s
  {
    RemoveAllPrefixed(p, s);
    RemoveAllAbsent(s, p);
  }

  /** `s.replace(a, b)` for single characters. */
  function ReplaceChar(s: string, a: char, b: char): (r: string)
    ensures |r| == |s|
    ensures forall i :: 0 <= i < |s| ==> r[i] == (if s[i] == a then b else s[i])
  {
    if s == [] then [] else [if s[0] == a then b else s[0]] + ReplaceChar(s[1..], a, b)
  }

  lemma ReplaceCharAppend(s: string, t: string, a: char, b: char)
    ensures ReplaceChar(s + t, a, b) == ReplaceChar(s, a, b) + ReplaceChar(t, a, b)
  {
    var l, r := ReplaceChar(s + t, a, b), ReplaceChar(s, a, b) + ReplaceChar(t, a, b);
    assert |l| == |r|;
    forall i | 0 <= i < |l| ensures l[i] == r[i] {
      if i < |s| { assert (s + t)[i] == s[i]; } else { assert (s + t)[i] == t[i - |s|]; }
    }
  }

  lemma ReplaceCharAbsent(s: string, a: char, b: char)
    requires forall i :: 0 <= i < |s| ==> s[i] != a
    ensures ReplaceChar(s, a, b) == s
  {
  }

  /** The characters `str.strip()` removes (ASCII whitespace). */
  predicate IsSpace(c: char) {
    c == ' ' || c == '\t' || c == '\n' || c == '\r' || c == '\U{B}' || c == '\U{C}'
  }

  predicate AllSpace(s: string) {
    forall k :: 0 <= k < |s| ==> IsSpace(s[k])
  }

  /** `str.lstrip()`: a suffix of `s` with no whitespace left at the front. */
  function StripLeft(s: string): (r: string)
    ensures |r| <= |s| && r == s[|s| - |r|..]
    ensures r == [] || !IsSpace(r[0])
  {
    if s != [] && IsSpace(s[0]) then StripLeft(s[1..]) else s
  }

  /** `str.rstrip()`: a prefix of `s` with no whitespace left at the end. */
  function StripRight(s: string): (r: string)
    ensures |r| <= |s| && r == s[..|r|]
    ensures r == [] || !IsSpace(r[|r| - 1])
  {
    if s != [] && IsSpace(s[|s| - 1]) then StripRight(s[..|s| - 1]) else s
  }

  lemma {:induction false} StripRightKeepsFirst(s: string)
    requires s == [] || !IsSpace(s[0])
    ensures var r := StripRight(s); r == [] || !IsSpace(r[0])
  {
    if s != [] && IsSpace(s[|s| - 1]) {
      StripRightKeepsFirst(s[..|s| - 1]);
    }
  }

  /** `str.strip()`: no leading and no trailing whitespace remains. */
  function Strip(s: string): (r: string)
    ensures r == [] || (!IsSpace(r[0]) && !IsSpace(r[|r| - 1]))
  {
    StripRightKeepsFirst(StripLeft(s));
    StripRight(StripLeft(s))
  }

  /** Only whitespace is cut from the front. */
  lemma {:induction false} StripLeftCut(s: string)
    ensures AllSpace(s[..|s| - |StripLeft(s)|])
  {
    if s != [] && IsSpace(s[0]) {
      StripLeftCut(s[1..]);
      var n := |s| - |StripLeft(s)|;
      assert s[..n] == [s[0]] + s[1..][..n - 1];
    }
  }

  /** Only whitespace is cut from the end. */
  lemma {:induction false} StripRightCut(s: string)
    ensures AllSpace(s[|StripRight(s)|..])
  {
    if s != [] && IsSpace(s[|s| - 1]) {
      var p := s[..|s| - 1];
      StripRightCut(p);
      var m := |StripRight(s)|;
      assert s[m..] == p[m..] + [s[|s| - 1]];
    }
  }

  /** `r` is the slice `s[i..i + |r|]`, and everything around it is whitespace. */
  predicate StrippedSlice(s: string, i: nat, r: string) {
    && i + |r| <= |s| && r == s[i..i + |r|]
    && AllSpace(s[..i]) && AllSpace(s[i + |r|..])
  }

  /** `str.strip()` keeps a slice of the text and cuts only whitespace on either side of it. */
  lemma StripShape(s: string)
    ensures StrippedSlice(s, |s| - |StripLeft(s)|, Strip(s))
  {
    var t := StripLeft(s);
    StripLeftCut(s);
    StripRightCut(t);
    StripPieces(s, t, StripRight(t));
  }

  /** Stripping the front and then the back of `s` leaves a slice of `s` with whitespace cut from both sides. */
  lemma StripPieces(s: string, t: string, r: string)
    requires |t| <= |s| && t == s[|s| - |t|..] && AllSpace(s[..|s| - |t|])
    requires |r| <= |t| && r == t[..|r|] && AllSpace(t[|r|..])
    ensures StrippedSlice(s, |s| - |t|, r)
  {
    var i := |s| - |t|;
    assert s[i + |r|..] == t[|r|..];
  }

  lemma StripUnspaced(s: string)
    requires s == [] || (!IsSpace(s[0]) && !IsSpace(s[|s| - 1]))
    ensures Strip(s) == s
  {
  }

  /** `filters.get(key)` is truthy: the key is present with a non-empty value. */
  predicate Truthy(filters: map<string, string>, key: string) {
    key in filters && filters[key] != ""
  }

  /** `sep.join(parts)`. */
  function Join(parts: seq<string>, sep: string): string
  {
    if parts == [] then "" else if |parts| == 1 then parts[0] else parts[0] + sep + Join(parts[1..], sep)
  }

  /** A joined text begins with the first part's first character. */
  lemma JoinHead(parts: seq<string>, sep: string)
    requires |parts| > 0 && |parts[0]| > 0
    ensures |Join(parts, sep)| > 0 && Join(parts, sep)[0] == parts[0][0]
  {
  }

  predicate Free(s: string, c: char) {
    forall i :: 0 <= i < |s| ==> s[i] != c
  }

  /** `s.split(c)`. */
  function Split(s: string, c: char): (r: seq<string>)
    ensures |r| > 0
    decreases |s|
  {
    if s == [] then [""]
    else
      var rest := Split(s[1..], c);
      if s[0] == c then [""] + rest else [[s[0]] + rest[0]] + rest[1..]
  }

  lemma {:induction false} SplitPrefix(w: string, t: string, c: char)
    requires Free(w, c)
    ensures Split(w + t, c) == [w + Split(t, c)[0]] + Split(t, c)[1..]
    decreases |w|
  {
    var rest := Split(t, c);
    if w == [] {
      assert w + t == t && w + rest[0] == rest[0];
      assert rest == [rest[0]] + rest[1..];
    } else {
      var s := w + t;
      assert s[1..] == w[1..] + t;
      SplitPrefix(w[1..], t, c);
      assert [w[0]] + (w[1..] + rest[0]) == w + rest[0];
    }
  }

  /** Joining lines free of the separator and splitting again gives the lines back. */
  lemma {:induction false} SplitJoin(parts: seq<string>, c: char)
    requires |parts| > 0
    requires forall k :: 0 <= k < |parts| ==> Free(parts[k], c)
    ensures Split(Join(parts, [c]), c) == parts
  {
    if |parts| == 1 {
      SplitPrefix(parts[0], "", c);
      assert parts[0] + "" == parts[0];
    } else {
      var rest := Join(parts[1..], [c]);
      SplitJoin(parts[1..], c);
      assert Join(parts, [c]) == parts[0] + ([c] + rest);
      SplitPrefix(parts[0], [c] + rest, c);
      var t := [c] + rest;
      assert t[0] == c && t[1..] == rest;
      assert Split(t, c) == [""] + Split(rest, c);
      assert Split(t, c)[0] == "" && Split(t, c)[1..] == parts[1..];
      assert parts[0] + "" == parts[0];
      assert parts == [parts[0]] + parts[1..];
    }
  }
}

/** The dynamically typed values that travel in the bot's parameter dictionaries. */
module Values {

  datatype Value = NoneValue | Str(s: string) | Int(i: int) | Bool(b: bool)

  /** Python truthiness of a parameter value. */
  predicate Truthful(v: Value) {
    match v
    case NoneValue => false
    case Str(s) => s != ""
    case Int(i) => i != 0
    case Bool(b) => b
  }

  /** The HH search parameters the bot ever sets. */
  datatype Key = Text | Experience | Salary | OnlyWithSalary | Schedule | Area
               | PerPage | Page | OrderBy | SearchField | DateFrom

  /** The name under which a parameter goes on the wire. */
  function Name(k: Key): string
  {
    match k
    case Text => "text"
    case Experience => "experience"
    case Salary => "salary"
    case OnlyWithSalary => "only_with_salary"
    case Schedule => "schedule"
    case Area => "area"
    case PerPage => "per_page"
    case Page => "page"
    case OrderBy => "order_by"
    case SearchField => "search_field"
    case DateFrom => "date_from"
  }
}
