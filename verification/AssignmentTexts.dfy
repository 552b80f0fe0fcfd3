/** What the text of an assignment becomes: the converted value by the form of the text
    (reflectValueFromString and parseInterfaceValue of cmd/config_assignment.go). */
module AssignmentTexts {
  import opened Text
  import opened Numerals
  import opened StringOrder
  import opened Assignment

  // ---------- Numbers ----------

  /** An integer field takes exactly the numerals of the integers of its width. */
  lemma {:induction false} IntegerText(c: Codec, bits: nat, text: string, i: int)
    ensures Convert(c, TInt(bits), text) == Ok(Leaf(Int(i))) <==> InRange(i, bits) && Numeral(text, i)
    ensures Convert(c, TInt(bits), text).Err? <==> forall j: int :: !(InRange(j, bits) && Numeral(text, j))
  {
    ParseIntIff(text, bits, i);
    forall j: int ensures ParseInt(text, bits) == Some(j) <==> InRange(j, bits) && Numeral(text, j) {
      ParseIntIff(text, bits, j);
    }
    if ParseInt(text, bits).Some? {
      var n := ParseInt(text, bits).value;
      assert InRange(n, bits) && Numeral(text, n);
    }
  }

  /** An unsigned one takes their digits without a sign. */
  lemma {:induction false} UnsignedText(c: Codec, bits: nat, text: string, i: int)
    ensures Convert(c, TUint(bits), text) == Ok(Leaf(Int(i))) <==> 0 <= i < Pow2(bits) && DigitsOf(text, i)
  {
    ParseUintIff(text, bits, i);
  }

  // ---------- Truth values ----------

  const TRUE := "true"
  const FALSE := "false"

  function Upper(c: char): char {
    if 'a' <= c <= 'z' then c - ('a' - 'A') else c
  }

  function AllUpper(s: string): (u: string)
    ensures |u| == |s| && forall i :: 0 <= i < |s| ==> u[i] == Upper(s[i])
  {
    seq(|s|, i requires 0 <= i < |s| => Upper(s[i]))
  }

  /** A digit; a word or its first letter, in small or capital letters; or the word with a capital. */
  predicate Means(s: string, digit: string, word: string)
    requires word != ""
  {
    || s == digit
    || s == word || s == AllUpper(word) || s == [Upper(word[0])] + word[1..]
    || s == word[..1] || s == [Upper(word[0])]
  }

  lemma {:induction false} TrueTexts(s: string)
    ensures ParseBool(s) == Some(true) <==> Means(s, "1", TRUE)
  {
    assert AllUpper(TRUE) == "TRUE";
    assert TRUE[1..] == "rue" && ['T'] + "rue" == "True";
    assert TRUE[..1] == "t";
  }

  lemma {:induction false} FalseTexts(s: string)
    ensures ParseBool(s) == Some(false) <==> Means(s, "0", FALSE)
  {
    assert AllUpper(FALSE) == "FALSE";
    assert FALSE[1..] == "alse" && ['F'] + "alse" == "False";
    assert FALSE[..1] == "f";
  }

  predicate TruthText(s: string, b: bool) {
    if b then Means(s, "1", TRUE) else Means(s, "0", FALSE)
  }

  lemma {:induction false} BoolText(c: Codec, text: string, b: bool)
    ensures Convert(c, TBool, text) == Ok(Leaf(Bool(b))) <==> TruthText(text, b)
    ensures ParseBool(text) == Some(b) <==> TruthText(text, b)
  {
    TrueTexts(text);
    FalseTexts(text);
  }

  // ---------- Lists, pointers and zero values ----------

  predicate Json(text: string) {
    HasPrefix(TrimSpace(text), "{") || HasPrefix(TrimSpace(text), "[")
  }

  const COMMAS := TRef(SliceHeader, TElems(TStr))

  lemma TextOfList(c: Codec, text: string)
    requires !Json(text)
    ensures Convert(c, COMMAS, text) == Ok(Ref((), Block(if text == "" then [] else TrimAll(Split(text, ',')))))
  {
  }

  /** A list of strings written with commas: its items, trimmed, in order. The empty text is the empty
      list. */
  lemma {:induction false} ListText(c: Codec, items: seq<string>)
    requires Free(items, ',') && items != [] && Join(items, ',') != "" && !Json(Join(items, ','))
    ensures exists b: seq<Plain> ::
              && Convert(c, COMMAS, Join(items, ',')) == Ok(Ref((), Block(b))) && |b| == |items|
              && forall i :: 0 <= i < |items| ==> b[i] == Leaf(Str(TrimSpace(items[i])))
  {
    SplitJoin(items, ',');
    TextOfList(c, Join(items, ','));
    assert Convert(c, COMMAS, Join(items, ',')) == Ok(Ref((), Block(TrimAll(items))));
  }

  /** The text null is the nil pointer; other text is what it points to. */
  lemma PointerText(c: Codec, T: Type, text: string)
    ensures Convert(c, TRef(Pointer, T), text) == Ok(Nil) <==> TrimSpace(text) == "null"
    ensures TrimSpace(text) != "null" ==>
              forall x :: Convert(c, TRef(Pointer, T), text) == Ok(Ref((), x)) <==> Convert(c, T, text) == Ok(x)
  {
  }

  /** The zero value of a scalar is what the zero of its texts converts to. */
  lemma {:induction false} ZeroText(c: Codec, bits: nat)
    requires bits > 0
    ensures Convert(c, TStr, "") == Ok(Zero(TStr))
    ensures Convert(c, TInt(bits), Signed(0)) == Ok(Zero(TInt(bits)))
    ensures Convert(c, TUint(bits), Signed(0)) == Ok(Zero(TUint(bits)))
  {
    SignedIsNumeral(0);
    IntegerText(c, bits, Signed(0), 0);
    UnsignedText(c, bits, Signed(0), 0);
  }

  lemma {:induction false} ZeroTruth(c: Codec, text: string)
    ensures Convert(c, TBool, text) == Ok(Zero(TBool)) <==> TruthText(text, false)
  {
    BoolText(c, text, false);
  }

  // ---------- Empty interfaces ----------

  /** Text for an empty interface that is no JSON is a truth value if it means one, else an integer if
      it is a numeral of 64 bits, else itself. */
  lemma {:induction false} InterfaceText(c: Codec, text: string)
    requires !Json(text)
    ensures var r := Convert(c, TIface(true), text);
      && (forall b :: r == Ok(Dyn(TBool, Leaf(Bool(b)))) <==> TruthText(text, b))
      && (forall i: int :: r == Ok(Dyn(TInt(64), Leaf(Int(i))))
                      <==> InRange(i, 64) && Numeral(text, i) && !TruthText(text, true) && !TruthText(text, false))
      && (r == Ok(Dyn(TStr, Leaf(Str(text)))) <==>
            && !TruthText(text, true) && !TruthText(text, false)
            && forall i: int :: !(InRange(i, 64) && Numeral(text, i)))
      && (forall s :: r == Ok(Dyn(TStr, Leaf(Str(s)))) ==> s == text)
  {
    forall b: bool ensures ParseBool(text) == Some(b) <==> TruthText(text, b) {
      BoolText(c, text, b);
    }
    forall i: int ensures ParseInt(text, 64) == Some(i) <==> InRange(i, 64) && Numeral(text, i) {
      ParseIntIff(text, 64, i);
    }
    assert ParseBool(text).Some? <==> TruthText(text, true) || TruthText(text, false);
    assert ParseInt(text, 64).Some? <==> exists i: int :: InRange(i, 64) && Numeral(text, i);
  }

  lemma {:induction false} WordStart(i: int)
    ensures var s := Signed(i); s != "" && (IsDigit(s[0]) || s[0] == '-') && !Json(s)
  {
    var s := Signed(i);
    assert !IsSpace(s[0]) && TrimLeft(s) == s;
    assert TrimRight(s) <= s;
  }

  lemma OneDigit(i: int, d: nat)
    requires d < 10
    ensures Signed(i) == Decimal(d) <==> i == d
  {
    WordStart(i);
    if Signed(i) == Decimal(d) {
      assert i >= 0;
      DecimalValue(i);
      DecimalValue(d);
    }
  }

  /** Words that are no digit do not start like an integer. */
  lemma OnlyDigits(s: string)
    requires s != "" && (IsDigit(s[0]) || s[0] == '-')
    ensures Means(s, "1", TRUE) <==> s == "1"
    ensures Means(s, "0", FALSE) <==> s == "0"
  {
  }

  lemma {:induction false} OnlyOneOne(i: int)
    ensures TruthText(Signed(i), true) <==> i == 1
    ensures TruthText(Signed(i), false) <==> i == 0
  {
    WordStart(i);
    OnlyDigits(Signed(i));
    OneDigit(i, 1);
    OneDigit(i, 0);
    assert Decimal(1) == "1" && Decimal(0) == "0";
  }

  /** An integer put into an empty interface as its digits comes back as an integer, but for 0 and 1:
      they become truth values. */
  lemma {:induction false} InterfaceInteger(c: Codec, i: int)
    requires InRange(i, 64)
    ensures Convert(c, TIface(true), Signed(i))
         == Ok(if i == 0 || i == 1 then Dyn(TBool, Leaf(Bool(i == 1))) else Dyn(TInt(64), Leaf(Int(i))))
  {
    WordStart(i);
    OnlyOneOne(i);
    SignedIsNumeral(i);
    InterfaceText(c, Signed(i));
  }
}
