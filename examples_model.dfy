/**
 * Concrete queries and documents, worked through the model: the behaviour
 * the program is documented to have on small inputs.
 */
module QueryExamples {
  import opened Wrappers
  import opened Tokenizer
  import opened TokenizerLaws

  /** `[12x]` is no index token, so the scanner skips the bracket and takes `12x` as a key. */
  lemma BracketWithoutIndex()
    ensures Scan("[12x]") == Ok([Key("12x")])
  {
    assert "[12x]" == "[" + "12x" + "]";
    BracketedKey("12x", 2);
  }

  /** `a.b.c` is three keys in order. */
  lemma DottedKeys()
    ensures Scan("a.b.c") == Ok([Key("a"), Key("b"), Key("c")])
  {
    ScanRender([Key("a"), Key("b"), Key("c")]);
    assert Render([Key("a"), Key("b"), Key("c")]) == "a.b.c";
  }

  /** `items[2].name` is the rendering of a key, an index and a key. */
  lemma RenderKeyIndexKey()
    ensures WellFormed([Key("items"), Index(2), Key("name")])
    ensures Render([Key("items"), Index(2), Key("name")]) == "items[2].name"
  {
    assert DecimalString(2) == "2";
  }

  /** `items[2].name` is a key, an index and a key, in order. */
  lemma KeyIndexKey()
    ensures Scan("items[2].name") == Ok([Key("items"), Index(2), Key("name")])
  {
    RenderKeyIndexKey();
    ScanRender([Key("items"), Index(2), Key("name")]);
  }

  /** `007` is ASCII digits with the value 7. */
  lemma ValueOfZeroZeroSeven()
    ensures AllAsciiDigits("007") && DecimalValue("007") == 7
  {
    assert AllAsciiDigits("0") && DecimalValue("0") == 0 by {
      assert "0"[..0] == [];
    }
    assert AllAsciiDigits("00") && DecimalValue("00") == 0 by {
      assert "00"[..1] == "0";
    }
    assert "007"[..2] == "00";
  }

  /** `]a` is the key `a`: a stray closing bracket starts no match and is skipped. */
  lemma StrayBracket()
    ensures Scan("]a") == Ok([Key("a")])
  {
    SkipsUnmatched("]", "a");
    assert "]" + "a" == "]a";
    ScanKeyThen("a", "");
    assert "a" + "" == "a";
    assert Scan("") == Ok([]);
    assert [Key("a")] + [] == [Key("a")];
  }

  /** `[007]` is the index 7: leading zeros are read as a decimal number. */
  lemma LeadingZeros()
    ensures Scan("[007]") == Ok([Index(7)])
  {
    ValueOfZeroZeroSeven();
    ScanBracketedDigits("007", "");
    assert "[" + "007" + "]" + "" == "[007]";
    assert Scan("") == Ok([]);
    assert [Index(7)] + [] == [Index(7)];
  }

  /** A bracketed non-ASCII decimal digit matches `\d` but fails to parse, which ends the run. */
  lemma ArabicIndicDigit()
    ensures Scan("[\U{0663}]") == Err(BadIndex("\U{0663}"))
  {
    var s := "[\U{0663}]";
    assert IsDecimalDigit(s[1]);
    RunLengthIs(s[1..], Digit, 1);
    assert StartsIndexToken(s);
    assert s[1..2] == "\U{0663}";
  }
}

/** Evaluations of small documents, and one whole run. */
module DocumentExamples {
  import opened Wrappers
  import opened JsonValues
  import opened Tokenizer
  import opened TokenizerLaws
  import opened Evaluator
  import opened Program
  import opened QueryExamples

  const A_B_5: Json := Object(map["a" := Object(map["b" := Num(Number(false, 5, 0))])])

  /** `{"a": {"b": 5}}` with `a.b` gives 5. */
  lemma NestedLookup()
    ensures Walk(A_B_5, [Key("a"), Key("b")]) == Ok(Num(Number(false, 5, 0)))
  {
  }

  /** `{"a": null}` with `a.b` stops at the null and gives no result rather than a type mismatch. */
  lemma NullStopsTheWalk()
    ensures Walk(Object(map["a" := Null]), [Key("a"), Key("b")]) == Ok(Null)
  {
  }

  /** `{"a": 1}` with `missing` gives no result: a missing key is Null. */
  lemma MissingKeyIsNull()
    ensures Walk(Object(map["a" := Num(Number(false, 1, 0))]), [Key("missing")]) == Ok(Null)
  {
  }

  /** `[1,2,3]` with `[5]` fails: an index past the end is an error, not Null. */
  lemma IndexPastEnd()
    ensures Walk(Array([Num(Number(false, 1, 0)), Num(Number(false, 2, 0)), Num(Number(false, 3, 0))]), [Index(5)])
      == Err(IndexOutOfBounds(5, 3))
  {
  }

  /** `[1,2,3]` with `[1]` gives 2: an index selects the element at that 0-based position. */
  lemma IndexSelectsElement()
    ensures Walk(Array([Num(Number(false, 1, 0)), Num(Number(false, 2, 0)), Num(Number(false, 3, 0))]), [Index(1)])
      == Ok(Num(Number(false, 2, 0)))
  {
  }

  /** `{"a": 1, "b": 2}` with `b` gives 2: a key selects its own field. */
  lemma KeySelectsField()
    ensures Walk(Object(map["a" := Num(Number(false, 1, 0)), "b" := Num(Number(false, 2, 0))]), [Key("b")])
      == Ok(Num(Number(false, 2, 0)))
  {
  }

  /** `{"a": 1}` with `[0]` fails: an object cannot be indexed by position. */
  lemma IndexOnObject()
    ensures Walk(Object(map["a" := Num(Number(false, 1, 0))]), [Index(0)]) == Err(IndexOnNonArray)
  {
  }

  /** The whole run on `{"a": {"b": 5}}` with the query `a.b` finds 5. */
  lemma RunNestedLookup()
    ensures Answer(A_B_5, "a.b") == Found(Num(Number(false, 5, 0)))
  {
    ScanRender([Key("a"), Key("b")]);
    assert Render([Key("a"), Key("b")]) == "a.b";
  }

  const ITEMS: Json := Object(map["items" := Array([
    Object(map["name" := Str("x")]),
    Object(map["name" := Str("y")]),
    Object(map["name" := Str("z")])])])

  /** `items[2].name` on a three-item list walks to the third item's name. */
  lemma WalkItemsIndexName()
    ensures Walk(ITEMS, [Key("items"), Index(2), Key("name")]) == Ok(Str("z"))
  {
  }

  /** The whole run of `items[2].name` on a three-item list finds the third item's name. */
  lemma RunItemsIndexName()
    ensures Answer(ITEMS, "items[2].name") == Found(Str("z"))
  {
    KeyIndexKey();
    WalkItemsIndexName();
  }
}
