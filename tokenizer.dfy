/**
 * The query tokenizer: a query string becomes the ordered list of steps
 * matched by the pattern `([a-zA-Z0-9_]+)|\[(\d+)\]`, collected left to
 * right without overlap. Characters outside every match are skipped.
 *
 * The regular expression is modelled by a hand-written scanner with the
 * same leftmost-first semantics: at each position the identifier
 * alternative is tried first (and, being greedy, takes the maximal run),
 * then the bracketed index; when neither matches, the scanner moves on by
 * one character.
 */
module Tokenizer {
  import opened Wrappers

  /** The largest value of Rust's `usize` on a 64-bit target. */
  const USIZE_MAX: nat := 0xFFFF_FFFF_FFFF_FFFF

  /** One step of a compiled path. */
  datatype QueryStep = Key(name: string) | Index(n: nat)

  /** Tokenizing fails when the digits of a bracketed index do not parse as a `usize`. */
  datatype ScanError = BadIndex(digits: string)

  /** The class `[a-zA-Z0-9_]`: ASCII letters, ASCII digits and underscore. */
  predicate IsWordChar(c: char) {
    ('a' <= c <= 'z') || ('A' <= c <= 'Z') || ('0' <= c <= '9') || c == '_'
  }

  /** The only digits `str::parse::<usize>` accepts. */
  predicate IsAsciiDigit(c: char) {
    '0' <= c <= '9'
  }

  /** The ten code points `zero` .. `zero + 9` of one block of decimal digits. */
  predicate InDigitBlock(code: int, zero: int) {
    zero <= code <= zero + 9
  }

  /**
   * The code points of the digit zero of every block of decimal digits
   * (general category Nd) of the Basic Multilingual Plane after ASCII, from
   * Arabic-Indic to Fullwidth.
   */
  const OTHER_DIGIT_ZEROS: seq<int> := [
    0x0660, 0x06F0, 0x07C0, 0x0966, 0x09E6, 0x0A66, 0x0AE6, 0x0B66, 0x0BE6,
    0x0C66, 0x0CE6, 0x0D66, 0x0DE6, 0x0E50, 0x0ED0, 0x0F20, 0x1040, 0x1090,
    0x17E0, 0x1810, 0x1946, 0x19D0, 0x1A80, 0x1A90, 0x1B50, 0x1BB0, 0x1C40,
    0x1C50, 0xA620, 0xA8D0, 0xA900, 0xA9D0, 0xA9F0, 0xAA50, 0xABF0, 0xFF10]

  /** `code` lies in one of the blocks whose zeros are listed in `zeros`. */
  predicate InDigitBlocks(code: int, zeros: seq<int>)
    decreases |zeros|
  {
    zeros != [] && (InDigitBlock(code, zeros[0]) || InDigitBlocks(code, zeros[1..]))
  }

  /**
   * The regex crate's `\d`, which is Unicode-aware: the ASCII digits and every
   * other decimal digit, all of which lie above U+065F.
   */
  predicate IsDecimalDigit(c: char) {
    IsAsciiDigit(c) || (0x0660 <= c as int && InDigitBlocks(c as int, OTHER_DIGIT_ZEROS))
  }

  /** The two character classes the pattern repeats with `+`. */
  datatype CharClass = Word | Digit

  predicate InClass(c: char, cls: CharClass) {
    match cls
    case Word => IsWordChar(c)
    case Digit => IsDecimalDigit(c)
  }

  /** The length of the longest prefix of `s` whose characters are all in `cls`. */
  function RunLength(s: string, cls: CharClass): (n: nat)
    ensures n <= |s|
    ensures n > 0 <==> s != [] && InClass(s[0], cls)
  {
    if s == [] || !InClass(s[0], cls) then 0 else 1 + RunLength(s[1..], cls)
  }

  /** The run is made of class characters and is maximal. */
  lemma {:induction false} RunLengthSpec(s: string, cls: CharClass)
    ensures forall i :: 0 <= i < RunLength(s, cls) ==> InClass(s[i], cls)
    ensures RunLength(s, cls) < |s| ==> !InClass(s[RunLength(s, cls)], cls)
  {
    if s != [] && InClass(s[0], cls) {
      var n := RunLength(s[1..], cls);
      RunLengthSpec(s[1..], cls);
      assert RunLength(s, cls) == n + 1;
      forall i | 0 <= i < n + 1
        ensures InClass(s[i], cls)
      {
        if i > 0 {
          assert s[i] == s[1..][i - 1];
        }
      }
      if n + 1 < |s| {
        assert s[n + 1] == s[1..][n];
      }
    }
  }

  /** The two conditions above determine the run length. */
  lemma RunLengthIs(s: string, cls: CharClass, n: nat)
    requires n <= |s|
    requires forall i :: 0 <= i < n ==> InClass(s[i], cls)
    requires n < |s| ==> !InClass(s[n], cls)
    ensures RunLength(s, cls) == n
  {
    RunLengthSpec(s, cls);
  }

  /** A run stops at the first character outside the class, at the latest. */
  lemma RunLengthStopsAt(s: string, cls: CharClass, k: nat)
    requires k < |s| && !InClass(s[k], cls)
    ensures RunLength(s, cls) <= k
  {
    RunLengthSpec(s, cls);
  }

  /** `\[(\d+)\]` matches at the start of `s`: a bracket, one or more digits, a closing bracket. */
  predicate StartsIndexToken(s: string) {
    |s| > 0 && s[0] == '[' &&
    var d := RunLength(s[1..], Digit);
    d > 0 && d + 1 < |s| && s[d + 1] == ']'
  }

  predicate AllAsciiDigits(ds: string) {
    forall i :: 0 <= i < |ds| ==> IsAsciiDigit(ds[i])
  }

  /** The numeric value of an ASCII digit. */
  function DigitValue(c: char): (d: nat)
    requires IsAsciiDigit(c)
    ensures d < 10
  {
    (c as int) - ('0' as int)
  }

  /** The value of a string of ASCII digits read in base ten, most significant first. */
  function DecimalValue(ds: string): nat
    requires AllAsciiDigits(ds)
  {
    if ds == [] then 0
    else DecimalValue(ds[..|ds| - 1]) * 10 + DigitValue(ds[|ds| - 1])
  }

  /**
   * Reading ASCII digits in base ten, most significant first, with a checked
   * multiply-and-add at each digit: the value, or nothing once a character
   * is not an ASCII digit or the value no longer fits a `usize`.
   */
  function ParseDigits(ds: string): Option<nat>
    decreases |ds|
  {
    if ds == [] then Some(0)
    else match ParseDigits(ds[..|ds| - 1])
      case None => None
      case Some(v) =>
        var c := ds[|ds| - 1];
        if IsAsciiDigit(c) && v * 10 + DigitValue(c) <= USIZE_MAX then Some(v * 10 + DigitValue(c))
        else None
  }

  /** What `str::parse::<usize>` returns for `ds`: the empty string is an error, anything else is read digit by digit. */
  function ParseUsize(ds: string): Option<nat> {
    if ds == [] then None else ParseDigits(ds)
  }

  /**
   * The parse, stated outright: a value exactly when `ds` is a non-empty
   * string of ASCII digits whose value fits a `usize`, and then that value;
   * an error for the empty string, any other character, and overflow.
   */
  lemma ParseUsizeValue(ds: string)
    ensures ParseUsize(ds) ==
      if ds != [] && AllAsciiDigits(ds) && DecimalValue(ds) <= USIZE_MAX then Some(DecimalValue(ds)) else None
  {
    ParseDigitsValue(ds);
  }

  lemma {:induction false} ParseDigitsValue(ds: string)
    ensures ParseDigits(ds) ==
      if AllAsciiDigits(ds) && DecimalValue(ds) <= USIZE_MAX then Some(DecimalValue(ds)) else None
    decreases |ds|
  {
    if ds != [] {
      var init, c := ds[..|ds| - 1], ds[|ds| - 1];
      ParseDigitsValue(init);
      assert AllAsciiDigits(ds) <==> AllAsciiDigits(init) && IsAsciiDigit(c) by {
        assert forall i :: 0 <= i < |init| ==> init[i] == ds[i];
      }
    }
  }

  /** Puts `xs` in front of the steps of a successful result; an error stays as it is. */
  function PrefixWith(xs: seq<QueryStep>, r: Result<seq<QueryStep>, ScanError>): Result<seq<QueryStep>, ScanError> {
    match r
    case Ok(ys) => Ok(xs + ys)
    case Err(e) => Err(e)
  }

  lemma PrefixWithNothing(r: Result<seq<QueryStep>, ScanError>)
    ensures PrefixWith([], r) == r
  {
    if r.Ok? {
      assert [] + r.value == r.value;
    }
  }

  lemma PrefixWithTwice(xs: seq<QueryStep>, ys: seq<QueryStep>, r: Result<seq<QueryStep>, ScanError>)
    ensures PrefixWith(xs, PrefixWith(ys, r)) == PrefixWith(xs + ys, r)
  {
    if r.Ok? {
      assert xs + (ys + r.value) == (xs + ys) + r.value;
    }
  }

  /** The index step for parsed digits ahead of the steps `r` that follow it, or the parse failure. */
  function AfterIndex(p: Option<nat>, digits: string, r: Result<seq<QueryStep>, ScanError>): Result<seq<QueryStep>, ScanError> {
    match p
    case None => Err(BadIndex(digits))
    case Some(v) => PrefixWith([Index(v)], r)
  }

  /**
   * The steps matched in `s`, left to right, or the first bracketed index
   * whose digits do not parse.
   */
  function Scan(s: string): Result<seq<QueryStep>, ScanError>
    decreases |s|, 1
  {
    if s == [] then Ok([]) else ScanAt(s)
  }

  /**
   * Scanning from the first character of `s`: a maximal word run is a key, a
   * `[digits]` token an index, and any other character starts no match.
   */
  function ScanAt(s: string): Result<seq<QueryStep>, ScanError>
    requires s != []
    decreases |s|, 0
  {
    if IsWordChar(s[0]) then
      var n := RunLength(s, Word);
      PrefixWith([Key(s[..n])], Scan(s[n..]))
    else if StartsIndexToken(s) then
      var d := RunLength(s[1..], Digit);
      AfterIndex(ParseUsize(s[1..d + 1]), s[1..d + 1], Scan(s[d + 2..]))
    else Scan(s[1..])
  }

  /** Once a prefix fails to parse, so does the whole string: the parse stops at the first bad step. */
  lemma {:induction false} ParseDigitsStaysNone(ds: string, k: nat)
    requires k <= |ds| && ParseDigits(ds[..k]) == None
    ensures ParseDigits(ds) == None
    decreases |ds|
  {
    if k < |ds| {
      var init := ds[..|ds| - 1];
      assert init[..k] == ds[..k];
      ParseDigitsStaysNone(init, k);
    } else {
      assert ds[..k] == ds;
    }
  }

  /**
   * `str::parse::<usize>` on a string: digit by digit, most significant
   * first, rejecting the empty string, any character that is not an ASCII
   * digit, and any step at which the checked multiply-and-add overflows.
   */
  method ParseIndex(digits: string) returns (r: Option<nat>)
    ensures r == ParseUsize(digits)
  {
    if |digits| == 0 {
      return None;
    }
    var acc: nat := 0;
    var k := 0;
    while k < |digits|
      invariant 0 <= k <= |digits|
      invariant ParseDigits(digits[..k]) == Some(acc)
    {
      var c := digits[k];
      assert digits[..k + 1][..k] == digits[..k];
      if !IsAsciiDigit(c) {
        ParseDigitsStaysNone(digits, k + 1);
        return None;
      }
      var d := DigitValue(c);
      if acc * 10 + d > USIZE_MAX {
        ParseDigitsStaysNone(digits, k + 1);
        return None;
      }
      acc := acc * 10 + d;
      k := k + 1;
    }
    assert digits[..k] == digits;
    return Some(acc);
  }

  /** Scan at a word character, as one equation. */
  lemma ScanWordStep(s: string)
    requires s != [] && IsWordChar(s[0])
    ensures var n := RunLength(s, Word); Scan(s) == PrefixWith([Key(s[..n])], Scan(s[n..]))
  {
  }

  /** Scan at a `[digits]` token, as one equation. */
  lemma ScanIndexStep(s: string)
    requires StartsIndexToken(s)
    ensures var d := RunLength(s[1..], Digit);
      Scan(s) == AfterIndex(ParseUsize(s[1..d + 1]), s[1..d + 1], Scan(s[d + 2..]))
  {
  }

  /** Scan at a character that starts no match, as one equation. */
  lemma ScanSkipStep(s: string)
    requires s != [] && !IsWordChar(s[0]) && !StartsIndexToken(s)
    ensures Scan(s) == Scan(s[1..])
  {
  }

  /**
   * Scanning at a word character takes the whole run as one key: `ScanWordStep`
   * at position `i` of the query, the form the loop of `Compile` needs.
   */
  lemma ScanAtWord(query: string, i: nat, j: nat)
    requires i < j <= |query| && IsWordChar(query[i])
    requires j - i == RunLength(query[i..], Word)
    ensures Scan(query[i..]) == PrefixWith([Key(query[i..j])], Scan(query[j..]))
  {
    var rest := query[i..];
    assert rest[0] == query[i];
    ScanWordStep(rest);
    assert rest[..j - i] == query[i..j] && rest[j - i..] == query[j..];
  }

  /**
   * Scanning at a complete `[digits]` token yields its index, or fails on its
   * digits: `ScanIndexStep` at position `i` of the query, for `Compile`.
   */
  lemma ScanAtIndex(query: string, i: nat, j: nat)
    requires i + 1 < j < |query| && query[i] == '[' && query[j] == ']'
    requires j - i - 1 == RunLength(query[i + 1..], Digit)
    ensures Scan(query[i..]) == AfterIndex(ParseUsize(query[i + 1..j]), query[i + 1..j], Scan(query[j + 1..]))
  {
    var rest := query[i..];
    assert rest[0] == query[i] && rest[1..] == query[i + 1..];
    assert StartsIndexToken(rest);
    ScanIndexStep(rest);
    assert rest[1..j - i] == query[i + 1..j];
    assert rest[j - i + 1..] == query[j + 1..];
  }

  /** A character that starts no match is skipped: `ScanSkipStep` at position `i`, for `Compile`. */
  lemma ScanAtOther(query: string, i: nat)
    requires i < |query| && !IsWordChar(query[i])
    requires query[i] == '[' ==> !StartsIndexToken(query[i..])
    ensures Scan(query[i..]) == Scan(query[i + 1..])
  {
    var rest := query[i..];
    assert rest[0] == query[i] && rest[1..] == query[i + 1..];
    ScanSkipStep(rest);
  }

  /**
   * A bracket whose digit run is empty or not closed starts no match and is
   * skipped: `ScanAtOther` stated with the run's end `j`, which the loop of
   * `Compile` has at hand.
   */
  lemma ScanAtBracket(query: string, i: nat, j: nat)
    requires i + 1 <= j <= |query| && query[i] == '['
    requires j - i - 1 == RunLength(query[i + 1..], Digit)
    requires !(j > i + 1 && j < |query| && query[j] == ']')
    ensures Scan(query[i..]) == Scan(query[i + 1..])
  {
    var rest := query[i..];
    assert rest[0] == query[i] && rest[1..] == query[i + 1..];
    assert j < |query| ==> rest[j - i] == query[j];
    ScanSkipStep(rest);
  }

  /** The end of the maximal run of `cls` characters of `query` that begins at `start`. */
  method MatchRun(query: string, start: nat, cls: CharClass) returns (end: nat)
    requires start <= |query|
    ensures start <= end <= |query|
    ensures end - start == RunLength(query[start..], cls)
  {
    end := start;
    while end < |query| && InClass(query[end], cls)
      invariant start <= end <= |query|
      invariant forall k :: start <= k < end ==> InClass(query[k], cls)
    {
      end := end + 1;
    }
    RunLengthIs(query[start..], cls, end - start);
  }

  /**
   * The tokenizing loop: every match of the pattern, in order, becomes one
   * step pushed onto `queries`; an index whose digits do not parse ends the
   * run with an error.
   */
  method Compile(query: string) returns (r: Result<seq<QueryStep>, ScanError>)
    ensures r == Scan(query)
  {
    var queries: seq<QueryStep> := [];
    var i := 0;
    assert query[i..] == query;
    PrefixWithNothing(Scan(query));
    while i < |query|
      invariant 0 <= i <= |query|
      invariant Scan(query) == PrefixWith(queries, Scan(query[i..]))
    {
      if IsWordChar(query[i]) {
        var j := MatchRun(query, i, Word);
        ScanAtWord(query, i, j);
        PrefixWithTwice(queries, [Key(query[i..j])], Scan(query[j..]));
        queries := queries + [Key(query[i..j])];
        i := j;
      } else if query[i] == '[' {
        var j := MatchRun(query, i + 1, Digit);
        if j > i + 1 && j < |query| && query[j] == ']' {
          ScanAtIndex(query, i, j);
          var index := ParseIndex(query[i + 1..j]);
          match index
          case None =>
            assert Scan(query[i..]) == Err(BadIndex(query[i + 1..j]));
            return Err(BadIndex(query[i + 1..j]));
          case Some(v) =>
            assert Scan(query[i..]) == PrefixWith([Index(v)], Scan(query[j + 1..]));
            PrefixWithTwice(queries, [Index(v)], Scan(query[j + 1..]));
            queries := queries + [Index(v)];
            i := j + 1;
        } else {
          ScanAtBracket(query, i, j);
          i := i + 1;
        }
      } else {
        ScanAtOther(query, i);
        i := i + 1;
      }
    }
    assert query[i..] == [];
    assert queries + [] == queries;
    r := Ok(queries);
  }
}
