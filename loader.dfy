/** The two string helpers the catalogue loader applies to characteristic
    values: reading the number at the start of a characteristic such as
    "3+" or "4\"", and splitting a comma-separated keyword list. */
module Loader {
  import opened Wrappers
  import opened Text

  /** `parse_int_from_characteristic`: the value of the run of decimal digits
      the text starts with, or nothing when it does not start with a digit. */
  function ParseIntFromCharacteristic(value: string): (r: Option<nat>)
    ensures r.None? <==> value == [] || !IsDigit(value[0])
  {
    var k := LeadingDigitCount(value);
    if k == 0 then None else Some(DigitsValue(value[..k]))
  }

  /** The number read is the one written by the whole leading digit run: any
      run of digits that ends the text or is followed by a non-digit. */
  lemma ReadsWholeDigitRun(value: string, k: nat)
    requires 0 < k <= |value|
    requires forall i :: 0 <= i < k ==> IsDigit(value[i])
    requires k == |value| || !IsDigit(value[k])
    ensures ParseIntFromCharacteristic(value) == Some(DigitsValue(value[..k]))
  {
    RunLength(value, k);
  }

  lemma {:induction false} RunLength(value: string, k: nat)
    requires k <= |value|
    requires forall i :: 0 <= i < k ==> IsDigit(value[i])
    requires k == |value| || !IsDigit(value[k])
    ensures LeadingDigitCount(value) == k
  {
    if k > 0 {
      RunLength(value[1..], k - 1);
    }
  }

  /** A number written in decimal and followed by anything that is not a
      digit (a "+", an inch mark, nothing) reads back as that number. */
  lemma CharacteristicRoundTrip(n: nat, suffix: string)
    requires suffix == [] || !IsDigit(suffix[0])
    ensures ParseIntFromCharacteristic(NatToString(n) + suffix) == Some(n)
  {
    var digits := NatToString(n);
    var value := digits + suffix;
    assert value[..|digits|] == digits;
    ReadsWholeDigitRun(value, |digits|);
    NatToStringRoundTrip(n);
  }

  /** "3+" reads as 3 and "12" as 12; "D6" and "" read as nothing. */
  lemma CharacteristicExamples()
    ensures ParseIntFromCharacteristic("3+") == Some(3)
    ensures ParseIntFromCharacteristic("12") == Some(12)
    ensures ParseIntFromCharacteristic("D6") == None
    ensures ParseIntFromCharacteristic("") == None
  {
    ReadsWholeDigitRun("3+", 1);
    assert "3+"[..1] == "3";
    ReadsWholeDigitRun("12", 2);
    assert "12"[..2] == "12";
    assert "12"[..1] == "1";
  }

  /** Text that is non-empty and neither starts nor ends with whitespace. */
  predicate IsKeyword(s: string) {
    |s| > 0 && !IsSpace(s[0]) && !IsSpace(s[|s| - 1])
  }

  /** One field's contribution: its stripped text, unless that is empty. */
  function Kept(field: string): (kws: seq<string>)
    ensures kws == [] || (|kws| == 1 && IsKeyword(kws[0]))
  {
    var kw := Strip(field);
    if kw == [] then [] else assert IsKeyword(kw); [kw]
  }

  /** The comprehension in `parse_keywords`: each field stripped, in order,
      keeping those that are not empty after stripping. */
  function StrippedFields(fields: seq<string>): (kws: seq<string>)
    ensures |kws| <= |fields|
  {
    if fields == [] then [] else Kept(fields[0]) + StrippedFields(fields[1..])
  }

  /** Every keyword kept is non-empty and stripped. */
  lemma {:induction false} StrippedFieldsAreKeywords(fields: seq<string>)
    ensures forall i :: 0 <= i < |StrippedFields(fields)| ==> IsKeyword(StrippedFields(fields)[i])
  {
    if fields != [] {
      StrippedFieldsAreKeywords(fields[1..]);
      var head, rest := Kept(fields[0]), StrippedFields(fields[1..]);
      assert StrippedFields(fields) == head + rest;
      if head == [] {
        assert head + rest == rest;
      } else {
        forall i | 0 <= i < |head + rest|
          ensures IsKeyword((head + rest)[i])
        {
          if i == 0 {
            assert (head + rest)[0] == head[0];
          } else {
            assert (head + rest)[i] == rest[i - 1];
          }
        }
      }
    }
  }

  /** `parse_keywords`: no keywords for a missing or empty value, otherwise
      the stripped, non-empty comma-separated fields in order. */
  function ParseKeywords(value: Option<string>): (kws: seq<string>)
    ensures value.None? || value == Some("") ==> kws == []
    ensures value.Some? ==> |kws| <= CountChar(value.value, ',') + 1
    ensures forall i :: 0 <= i < |kws| ==> IsKeyword(kws[i])
  {
    if value.None? || value.value == "" then []
    else
      StrippedFieldsAreKeywords(Split(value.value, ','));
      StrippedFields(Split(value.value, ','))
  }

  lemma {:induction false} StrippedFieldsAppend(a: seq<string>, b: seq<string>)
    ensures StrippedFields(a + b) == StrippedFields(a) + StrippedFields(b)
  {
    if a == [] {
      assert a + b == b;
    } else {
      calc {
        StrippedFields(a + b);
      == { assert (a + b)[0] == a[0]; assert (a + b)[1..] == a[1..] + b; }
        Kept(a[0]) + StrippedFields(a[1..] + b);
      == { StrippedFieldsAppend(a[1..], b); }
        Kept(a[0]) + (StrippedFields(a[1..]) + StrippedFields(b));
      == { SeqAssociative(Kept(a[0]), StrippedFields(a[1..]), StrippedFields(b)); }
        (Kept(a[0]) + StrippedFields(a[1..])) + StrippedFields(b);
      ==
        StrippedFields(a) + StrippedFields(b);
      }
    }
  }

  lemma SeqAssociative(x: seq<string>, y: seq<string>, z: seq<string>)
    ensures x + (y + z) == (x + y) + z
  {
  }

  /** The keywords of two lists joined by a comma are the keywords of the
      first followed by those of the second: order is kept and no keyword
      spans a comma. */
  lemma KeywordsAppend(a: string, b: string)
    ensures ParseKeywords(Some(a + "," + b)) == ParseKeywords(Some(a)) + ParseKeywords(Some(b))
  {
    KeywordsOfText(a);
    KeywordsOfText(b);
    KeywordsOfText(a + "," + b);
    SplitAppend(a, b, ',');
    StrippedFieldsAppend(Split(a, ','), Split(b, ','));
  }

  /** The empty value needs no case of its own: its one field is blank. */
  lemma KeywordsOfText(value: string)
    ensures ParseKeywords(Some(value)) == StrippedFields(Split(value, ','))
  {
    if value == "" {
      assert Split("", ',') == [""];
      assert Strip("") == "";
      assert [""][1..] == [];
    }
  }

  /** A field without a comma gives its stripped text as its one keyword, or
      nothing when it is blank. */
  lemma KeywordsOfOneField(s: string)
    requires forall i :: 0 <= i < |s| ==> s[i] != ','
    ensures ParseKeywords(Some(s)) == if Strip(s) == [] then [] else [Strip(s)]
  {
    SplitWithout(s, ',');
    assert [s][1..] == [];
    assert StrippedFields([s]) == Kept(s) + StrippedFields([]);
  }

  /** Keywords written out joined by commas read back as themselves. */
  lemma {:induction false} KeywordsRoundTrip(kws: seq<string>)
    requires forall i :: 0 <= i < |kws| ==> IsKeyword(kws[i])
    requires forall i, j :: 0 <= i < |kws| && 0 <= j < |kws[i]| ==> kws[i][j] != ','
    ensures ParseKeywords(Some(Join(kws, ','))) == kws
  {
    if kws != [] {
      StripOfStripped(kws[0]);
      KeywordsOfOneField(kws[0]);
      if |kws| > 1 {
        KeywordsRoundTrip(kws[1..]);
        KeywordsAppend(kws[0], Join(kws[1..], ','));
        assert Join(kws, ',') == kws[0] + "," + Join(kws[1..], ',');
      }
    }
  }
}
