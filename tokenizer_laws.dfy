/**
 * What the tokenizer promises, stated against a reference definition: a
 * renderer that writes a step list back as a query in the conventional
 * notation (`user.addresses[0].city`). Tokenizing a rendered list gives the
 * list back, every list the tokenizer produces is one the renderer accepts,
 * and separators split a query into independently tokenized parts.
 */
module TokenizerLaws {
  import opened Wrappers
  import opened Tokenizer

  /** The ASCII digit with value `d`. */
  function DigitChar(d: nat): (c: char)
    requires d < 10
    ensures IsAsciiDigit(c) && DigitValue(c) == d
  {
    ('0' as int + d) as char
  }

  /** The decimal notation of `n`, without leading zeros. */
  function DecimalString(n: nat): string
    decreases n
  {
    if n < 10 then [DigitChar(n)] else DecimalString(n / 10) + [DigitChar(n % 10)]
  }

  /** Decimal notation is read back as the number it was written from. */
  lemma {:induction false} DecimalStringValue(n: nat)
    ensures DecimalString(n) != [] && AllAsciiDigits(DecimalString(n))
    ensures DecimalValue(DecimalString(n)) == n
  {
    var ds := DecimalString(n);
    if n >= 10 {
      DecimalStringValue(n / 10);
      assert ds[..|ds| - 1] == DecimalString(n / 10);
    }
  }

  /** Parsing the decimal notation of a `usize` value gives that value back. */
  lemma ParseDecimalString(n: nat)
    requires n <= USIZE_MAX
    ensures ParseUsize(DecimalString(n)) == Some(n)
  {
    DecimalStringValue(n);
    ParseUsizeValue(DecimalString(n));
  }

  /** A step the renderer can write: a non-empty identifier key, or an index that fits a `usize`. */
  predicate WellFormedStep(step: QueryStep) {
    match step
    case Key(name) => name != [] && forall i :: 0 <= i < |name| ==> IsWordChar(name[i])
    case Index(n) => n <= USIZE_MAX
  }

  predicate WellFormed(steps: seq<QueryStep>) {
    forall i :: 0 <= i < |steps| ==> WellFormedStep(steps[i])
  }

  /** One step in query notation: `name`, `.name` after another step, or `[n]`. */
  function Piece(step: QueryStep, first: bool): string {
    match step
    case Key(name) => (if first then "" else ".") + name
    case Index(n) => "[" + DecimalString(n) + "]"
  }

  function RenderFrom(steps: seq<QueryStep>, first: bool): string
    decreases |steps|
  {
    if steps == [] then "" else Piece(steps[0], first) + RenderFrom(steps[1..], false)
  }

  /** The query that a step list is conventionally written as. */
  function Render(steps: seq<QueryStep>): string {
    RenderFrom(steps, true)
  }

  /** What follows the first piece begins with a separator or a bracket. */
  lemma RenderTailStart(steps: seq<QueryStep>)
    ensures RenderFrom(steps, false) == [] || RenderFrom(steps, false)[0] in {'.', '['}
  {
    if steps != [] {
      var p := Piece(steps[0], false);
      assert p[0] in {'.', '['};
      assert RenderFrom(steps, false)[0] == p[0];
    }
  }

  /** A run of class characters ends where the class does. */
  lemma RunLengthOfConcat(u: string, v: string, cls: CharClass)
    requires forall i :: 0 <= i < |u| ==> InClass(u[i], cls)
    requires v == [] || !InClass(v[0], cls)
    ensures RunLength(u + v, cls) == |u|
  {
    RunLengthIs(u + v, cls, |u|);
  }

  /** A run that ends inside `u`, or right at a `v` that starts outside the class, is not extended by `v`. */
  lemma RunLengthPrefix(u: string, v: string, cls: CharClass)
    requires RunLength(u, cls) < |u| || (v != [] && !InClass(v[0], cls))
    ensures RunLength(u + v, cls) == RunLength(u, cls)
  {
    var n := RunLength(u, cls);
    RunLengthSpec(u, cls);
    RunLengthIs(u + v, cls, n);
  }

  /** Tokenizing a key followed by a non-word character yields the key first. */
  lemma ScanKeyThen(name: string, rest: string)
    requires WellFormedStep(Key(name))
    requires rest == [] || !IsWordChar(rest[0])
    ensures Scan(name + rest) == PrefixWith([Key(name)], Scan(rest))
  {
    var s := name + rest;
    RunLengthOfConcat(name, rest, Word);
    assert s[0] == name[0];
    ScanWordStep(s);
    assert s[..|name|] == name && s[|name|..] == rest;
  }

  /** Tokenizing `[digits]` of a `usize` value yields that index first. */
  lemma ScanIndexThen(n: nat, rest: string)
    requires n <= USIZE_MAX
    ensures Scan("[" + DecimalString(n) + "]" + rest) == PrefixWith([Index(n)], Scan(rest))
  {
    var ds := DecimalString(n);
    DecimalStringValue(n);
    var s := "[" + ds + "]" + rest;
    assert s[1..] == ds + ("]" + rest);
    assert forall i :: 0 <= i < |ds| ==> InClass(ds[i], Digit);
    RunLengthOfConcat(ds, "]" + rest, Digit);
    assert s[|ds| + 1] == ']';
    assert StartsIndexToken(s);
    ScanIndexStep(s);
    assert s[1..|ds| + 1] == ds;
    assert s[|ds| + 2..] == rest;
    ParseDecimalString(n);
  }

  /** A bracketed decimal number too large for a `usize` ends tokenizing with an error on its digits. */
  lemma ScanIndexOverflow(n: nat, rest: string)
    requires n > USIZE_MAX
    ensures Scan("[" + DecimalString(n) + "]" + rest) == Err(BadIndex(DecimalString(n)))
  {
    var ds := DecimalString(n);
    DecimalStringValue(n);
    var s := "[" + ds + "]" + rest;
    assert s[1..] == ds + ("]" + rest);
    assert forall i :: 0 <= i < |ds| ==> InClass(ds[i], Digit);
    RunLengthOfConcat(ds, "]" + rest, Digit);
    assert s[|ds| + 1] == ']';
    ScanIndexStep(s);
    assert s[1..|ds| + 1] == ds;
    ParseUsizeValue(ds);
  }

  /**
   * Tokenizing `[ds]` for any non-empty run `ds` of decimal digits (leading
   * zeros and non-ASCII digits included): the index `ds` denotes first, when
   * it is all ASCII and fits a `usize`; otherwise the run fails on `ds`.
   */
  lemma ScanBracketedDigits(ds: string, rest: string)
    requires ds != [] && forall i :: 0 <= i < |ds| ==> IsDecimalDigit(ds[i])
    ensures Scan("[" + ds + "]" + rest) ==
      if AllAsciiDigits(ds) && DecimalValue(ds) <= USIZE_MAX then PrefixWith([Index(DecimalValue(ds))], Scan(rest))
      else Err(BadIndex(ds))
  {
    var s := "[" + ds + "]" + rest;
    assert s[1..] == ds + ("]" + rest);
    assert forall i :: 0 <= i < |ds| ==> InClass(ds[i], Digit);
    RunLengthOfConcat(ds, "]" + rest, Digit);
    assert s[|ds| + 1] == ']';
    assert StartsIndexToken(s);
    ScanIndexStep(s);
    assert s[1..|ds| + 1] == ds;
    assert s[|ds| + 2..] == rest;
    ParseUsizeValue(ds);
  }

  /** A bracket before a word that is not all digits starts no `[digits]` token. */
  lemma NoIndexTokenAtBracketedKey(name: string, k: nat)
    requires WellFormedStep(Key(name))
    requires k < |name| && !IsDecimalDigit(name[k])
    ensures !StartsIndexToken("[" + name + "]")
  {
    var s := "[" + name + "]";
    assert s[1..] == name + "]";
    assert s[1..][k] == name[k];
    RunLengthStopsAt(s[1..], Digit, k);
    var d := RunLength(s[1..], Digit);
    assert d > 0 ==> s[d + 1] == name[d];
  }

  /**
   * A bracketed key that is not all digits is no index token: the bracket is
   * skipped and the key between the brackets is matched as a key.
   */
  lemma BracketedKey(name: string, k: nat)
    requires WellFormedStep(Key(name))
    requires k < |name| && !IsDecimalDigit(name[k])
    ensures Scan("[" + name + "]") == Ok([Key(name)])
  {
    var s := "[" + name + "]";
    assert s[1..] == name + "]";
    NoIndexTokenAtBracketedKey(name, k);
    ScanSkipStep(s);
    ScanKeyThen(name, "]");
    ScanSkipStep("]");
    assert [Key(name)] + [] == [Key(name)];
  }

  /** Tokenizing a key after a dot: the dot is skipped and the key comes first. */
  lemma ScanDotKeyThen(name: string, rest: string)
    requires WellFormedStep(Key(name))
    requires rest == [] || !IsWordChar(rest[0])
    ensures Scan("." + name + rest) == PrefixWith([Key(name)], Scan(rest))
  {
    var s := "." + name + rest;
    assert s[0] == '.' && s[1..] == name + rest;
    ScanSkipStep(s);
    ScanKeyThen(name, rest);
  }

  /** A rendered key, with its dot when it is not the first step, followed by the rest of a rendering. */
  lemma ScanKeyPieceThen(name: string, first: bool, rest: string)
    requires WellFormedStep(Key(name))
    requires rest == [] || rest[0] in {'.', '['}
    ensures Scan(Piece(Key(name), first) + rest) == PrefixWith([Key(name)], Scan(rest))
  {
    if first {
      assert Piece(Key(name), first) == name;
      ScanKeyThen(name, rest);
    } else {
      assert Piece(Key(name), first) == "." + name;
      ScanDotKeyThen(name, rest);
    }
  }

  /** Tokenizing one rendered piece followed by the rest of a rendering yields that step first. */
  lemma ScanPieceThen(step: QueryStep, first: bool, rest: string)
    requires WellFormedStep(step)
    requires rest == [] || rest[0] in {'.', '['}
    ensures Scan(Piece(step, first) + rest) == PrefixWith([step], Scan(rest))
  {
    match step
    case Key(name) =>
      ScanKeyPieceThen(name, first, rest);
    case Index(n) =>
      ScanIndexThen(n, rest);
  }

  /** Round trip: tokenizing the rendering of well-formed steps gives the steps back. */
  lemma {:induction false} ScanRenderFrom(steps: seq<QueryStep>, first: bool)
    requires WellFormed(steps)
    ensures Scan(RenderFrom(steps, first)) == Ok(steps)
  {
    if steps != [] {
      var tail := steps[1..];
      assert WellFormed(tail) by {
        forall i | 0 <= i < |tail| ensures WellFormedStep(tail[i]) {
          assert tail[i] == steps[i + 1];
        }
      }
      ScanRenderFrom(tail, false);
      RenderTailStart(tail);
      ScanPieceThen(steps[0], first, RenderFrom(tail, false));
      assert [steps[0]] + tail == steps;
    }
  }

  lemma ScanRender(steps: seq<QueryStep>)
    requires WellFormed(steps)
    ensures Scan(Render(steps)) == Ok(steps)
  {
    ScanRenderFrom(steps, true);
  }

  /**
   * Every step the tokenizer produces is well formed: keys are non-empty
   * runs of `[A-Za-z0-9_]`, indices fit a `usize`.
   */
  lemma {:induction false} ScanWellFormed(s: string)
    requires Scan(s).Ok?
    ensures WellFormed(Scan(s).value)
    decreases |s|
  {
    if s != [] {
      if IsWordChar(s[0]) {
        var n := RunLength(s, Word);
        RunLengthSpec(s, Word);
        ScanWellFormed(s[n..]);
        assert WellFormedStep(Key(s[..n]));
      } else if StartsIndexToken(s) {
        var d := RunLength(s[1..], Digit);
        ScanWellFormed(s[d + 2..]);
      } else {
        ScanWellFormed(s[1..]);
      }
    }
  }

  /**
   * Normal form: writing the steps of any query in the conventional notation
   * and tokenizing that again gives the same steps.
   */
  lemma RenderNormalizes(s: string)
    requires Scan(s).Ok?
    ensures Scan(Render(Scan(s).value)) == Scan(s)
  {
    ScanWellFormed(s);
    ScanRender(Scan(s).value);
  }

  /**
   * Characters outside every match are skipped wherever they occur: text
   * with no word character and no `[` adds nothing to what follows it.
   */
  lemma {:induction false} SkipsUnmatched(u: string, v: string)
    requires forall i :: 0 <= i < |u| ==> !IsWordChar(u[i]) && u[i] != '['
    ensures Scan(u + v) == Scan(v)
    decreases |u|
  {
    if u == [] {
      assert u + v == v;
    } else {
      DropFirst(u, v);
      ScanSkipTo(u + v, u[1..] + v);
      SkipsUnmatched(u[1..], v);
    }
  }

  /** A query with no word character and no bracket yields no steps. */
  lemma SkipsSeparators(s: string)
    requires forall i :: 0 <= i < |s| ==> !IsWordChar(s[i]) && s[i] != '['
    ensures Scan(s) == Ok([])
  {
    SkipsUnmatched(s, []);
    assert s + [] == s;
  }

  /** A character that can neither start, continue nor close any match. */
  predicate IsSeparator(c: char) {
    !IsWordChar(c) && !IsDecimalDigit(c) && c != '[' && c != ']'
  }

  /** The tokens of `s` followed by those of `t`; the first error wins. */
  function Concat(r1: Result<seq<QueryStep>, ScanError>, r2: Result<seq<QueryStep>, ScanError>): Result<seq<QueryStep>, ScanError> {
    match r1
    case Err(e) => Err(e)
    case Ok(xs) => PrefixWith(xs, r2)
  }

  lemma ConcatPrefix(xs: seq<QueryStep>, r1: Result<seq<QueryStep>, ScanError>, r2: Result<seq<QueryStep>, ScanError>)
    ensures PrefixWith(xs, Concat(r1, r2)) == Concat(PrefixWith(xs, r1), r2)
  {
    if r1.Ok? {
      PrefixWithTwice(xs, r1.value, r2);
    }
  }

  /** The word-character case of ScanSplit, given the split of what follows the key. */
  lemma ScanSplitAtWord(s: string, c: char, t: string)
    requires IsSeparator(c) && s != [] && IsWordChar(s[0])
    requires var n := RunLength(s, Word); Scan(s[n..] + [c] + t) == Concat(Scan(s[n..]), Scan(t))
    ensures Scan(s + [c] + t) == Concat(Scan(s), Scan(t))
  {
    var whole := s + [c] + t;
    var n := RunLength(s, Word);
    assert whole == s + ([c] + t);
    assert whole[0] == s[0];
    RunLengthPrefix(s, [c] + t, Word);
    assert whole[..n] == s[..n];
    assert whole[n..] == s[n..] + [c] + t;
    ConcatPrefix([Key(s[..n])], Scan(s[n..]), Scan(t));
  }

  /** A separator after `s` neither extends nor completes a `[digits]` token at its start. */
  lemma IndexTokenBeforeSeparator(s: string, c: char, t: string)
    requires IsSeparator(c) && s != [] && s[0] == '['
    ensures (s + [c] + t)[0] == '['
    ensures RunLength((s + [c] + t)[1..], Digit) == RunLength(s[1..], Digit)
    ensures StartsIndexToken(s + [c] + t) == StartsIndexToken(s)
  {
    var whole := s + [c] + t;
    var d := RunLength(s[1..], Digit);
    assert whole == s + ([c] + t);
    assert whole[1..] == s[1..] + ([c] + t);
    RunLengthPrefix(s[1..], [c] + t, Digit);
    assert d + 1 == |s| ==> whole[d + 1] == c;
    assert d + 1 < |s| ==> whole[d + 1] == s[d + 1];
  }

  /** A bracket of `s` that starts no `[digits]` token starts none with a separator and more text after `s`. */
  lemma NoIndexTokenBeforeSeparator(s: string, c: char, t: string)
    requires IsSeparator(c) && s != [] && s[0] == '[' && !StartsIndexToken(s)
    ensures !StartsIndexToken(s + [c] + t)
  {
    IndexTokenBeforeSeparator(s, c, t);
  }

  /** A `[digits]` token of `s` is still matched with a separator and more text after `s`. */
  lemma IndexBeforeSeparator(s: string, c: char, t: string)
    requires IsSeparator(c) && StartsIndexToken(s)
    ensures var d := RunLength(s[1..], Digit);
      Scan(s + [c] + t) == AfterIndex(ParseUsize(s[1..d + 1]), s[1..d + 1], Scan(s[d + 2..] + [c] + t))
  {
    var whole := s + [c] + t;
    var d := RunLength(s[1..], Digit);
    IndexTokenBeforeSeparator(s, c, t);
    assert whole[1..d + 1] == s[1..d + 1];
    assert whole[d + 2..] == s[d + 2..] + [c] + t;
    ScanIndexStep(whole);
  }

  lemma ConcatAfterIndex(p: Option<nat>, digits: string, r1: Result<seq<QueryStep>, ScanError>, r2: Result<seq<QueryStep>, ScanError>)
    ensures AfterIndex(p, digits, Concat(r1, r2)) == Concat(AfterIndex(p, digits, r1), r2)
  {
    if p.Some? {
      ConcatPrefix([Index(p.value)], r1, r2);
    }
  }

  /** The `[digits]` case of ScanSplit, given the split of what follows the token. */
  lemma ScanSplitAtIndex(s: string, c: char, t: string, d: nat)
    requires IsSeparator(c) && StartsIndexToken(s) && d == RunLength(s[1..], Digit)
    requires Scan(s[d + 2..] + [c] + t) == Concat(Scan(s[d + 2..]), Scan(t))
    ensures Scan(s + [c] + t) == Concat(Scan(s), Scan(t))
  {
    IndexBeforeSeparator(s, c, t);
    ScanIndexStep(s);
    ConcatAfterIndex(ParseUsize(s[1..d + 1]), s[1..d + 1], Scan(s[d + 2..]), Scan(t));
  }

  /** The first character and the rest of a concatenation, as one fact for the callers below. */
  lemma DropFirst(u: string, v: string)
    requires u != []
    ensures (u + v)[0] == u[0] && (u + v)[1..] == u[1..] + v
  {
  }

  /**
   * A skipped first character, with the rest given by name: the same equation
   * as `ScanSkipStep`, in the form that keeps `SkipBeforeSeparator` and
   * `SkipsUnmatched` cheap.
   */
  lemma ScanSkipTo(u: string, v: string)
    requires u != [] && !IsWordChar(u[0]) && !StartsIndexToken(u) && u[1..] == v
    ensures Scan(u) == Scan(v)
  {
    ScanSkipStep(u);
  }

  /** A character of `s` that starts no match is still skipped with a separator and more text after `s`. */
  lemma SkipBeforeSeparator(s: string, c: char, t: string)
    requires IsSeparator(c) && s != [] && !IsWordChar(s[0]) && !StartsIndexToken(s)
    ensures Scan(s + [c] + t) == Scan(s[1..] + [c] + t)
  {
    var whole := s + [c] + t;
    DropFirst(s, [c] + t);
    assert whole == s + ([c] + t) && s[1..] + [c] + t == s[1..] + ([c] + t);
    if s[0] == '[' {
      NoIndexTokenBeforeSeparator(s, c, t);
    }
    ScanSkipTo(whole, s[1..] + [c] + t);
  }

  /** The skipped-character case of ScanSplit, given the split of the rest. */
  lemma ScanSplitAtOther(s: string, c: char, t: string)
    requires IsSeparator(c) && s != [] && !IsWordChar(s[0]) && !StartsIndexToken(s)
    requires Scan(s[1..] + [c] + t) == Concat(Scan(s[1..]), Scan(t))
    ensures Scan(s + [c] + t) == Concat(Scan(s), Scan(t))
  {
    SkipBeforeSeparator(s, c, t);
    ScanSkipStep(s);
  }

  /**
   * A separator splits a query: the steps of `s + [c] + t` are those of `s`
   * followed by those of `t`, in order, and tokenizing fails exactly when
   * one of the parts does, with the leftmost failure.
   */
  lemma {:induction false} ScanSplit(s: string, c: char, t: string)
    requires IsSeparator(c)
    ensures Scan(s + [c] + t) == Concat(Scan(s), Scan(t))
    decreases |s|
  {
    if s == [] {
      var whole := s + [c] + t;
      assert whole[0] == c && whole[1..] == t;
      PrefixWithNothing(Scan(t));
    } else if IsWordChar(s[0]) {
      ScanSplit(s[RunLength(s, Word)..], c, t);
      ScanSplitAtWord(s, c, t);
    } else if StartsIndexToken(s) {
      var d := RunLength(s[1..], Digit);
      ScanSplit(s[d + 2..], c, t);
      ScanSplitAtIndex(s, c, t, d);
    } else {
      ScanSplit(s[1..], c, t);
      ScanSplitAtOther(s, c, t);
    }
  }
}
