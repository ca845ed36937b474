/**
 * The examples of the converter's unit tests (tests/tools_test.py), proved
 * of the model.
 */
module SplitExamples {
  import opened Split

  /** In "My name is Roberto", split around "name", nothing matches before 3. */
  lemma NameAt3(before: string, name: string, after: string)
    requires before == "My " && name == "name"
    ensures FirstOccurrence(before + name + after, name, 3)
  {
    var text := before + name + after;
    var low := Lower(text);
    var lit := Lower(name);
    assert lit == "name";
    assert low[0] == 'm' && low[1] == 'y' && low[2] == ' ';
    Mismatch(low, lit, 0, 0);
    Mismatch(low, lit, 1, 0);
    Mismatch(low, lit, 2, 0);
    assert text[3..7] == name;
  }

  /** The example of the unit tests: "name" is found at 3..7 in "My name is Roberto". */
  lemma SpanExample(text: string)
    requires text == "My name is Roberto"
    ensures GetEntityIndex(text, "name") == Ok(Span(3, 7))
  {
    assert text == "My " + "name" + " is Roberto";
    var before, name, after := "My ", "name", " is Roberto";
    NameAt3(before, name, after);
    FirstOccurrenceFound(text, name, 3);
  }

  /** In the sentence of the unit tests, cut at its only 'a' before the city, nothing matches the city before 27. */
  lemma AtlantisAt27(before: string, a: string, middle: string, city: string, after: string)
    requires before == "I'd like to book " && a == "a" && middle == " trip to " && city == "Atlantis"
    ensures FirstOccurrence(before + a + middle + city + after, city, 27)
  {
    var text := before + a + middle + city + after;
    assert 'a' !in before && 'A' !in before;
    assert 'a' !in middle && 'A' !in middle;
    var low := Lower(text);
    var lit := Lower(city);
    assert lit == "atlantis";
    forall j | 0 <= j < 27 ensures !OccursAt(low, lit, j) {
      if j < 17 {
        assert text[j] == before[j];
        Mismatch(low, lit, j, 0);
      } else if j == 17 {
        assert text[18] == ' ';
        Mismatch(low, lit, j, 1);
      } else {
        assert text[j] == middle[j - 18];
        Mismatch(low, lit, j, 0);
      }
    }
    assert text[27..35] == city;
  }

  /**
   * The example of the unit tests: in "I'd like to book a trip to Atlantis
   * from Caprica on Saturday", Atlantis as a destination city spans 27..35.
   * The sentence is given as the pieces around its first 'a' and its city.
   */
  lemma EntityExample(before: string, a: string, middle: string, city: string, after: string)
    requires before == "I'd like to book " && a == "a" && middle == " trip to " && city == "Atlantis"
    requires after == " from Caprica on Saturday"
    ensures GetEntity(Arg(Some("dst_city"), Some(city)), before + a + middle + city + after)
            == Ok(Some(EntityLabel(27, 35, "dst_city")))
  {
    AtlantisAt27(before, a, middle, city, after);
    var arg := Arg(Some("dst_city"), Some(city));
    assert !Skipped(arg) by {
      assert city != Sentinel;
      assert "dst_city" == Labels[0];
    }
    LabelFound(arg, before + a + middle + city + after, 27);
  }

  /** The cases of the unit tests. */
  lemma SizeExamples()
    ensures GetTrainTestSize(Some(0.20), Some(0.80)) == Ok((0.20, 0.80))
    ensures GetTrainTestSize(Some(0.20), None) == Ok((0.20, 0.80))
    ensures GetTrainTestSize(None, None) == Ok((0.75, 0.25))
    ensures GetTrainTestSize(Some(100.0), Some(10.0)) == Err(WrongTestSize)
    ensures GetTrainTestSize(Some(0.90), Some(0.20)) == Err(SumOverOne)
  {
  }
}
