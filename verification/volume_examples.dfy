/**
 Worked examples of the volume rule on concrete descriptions.
 */
module VolumeExamples {

  import opened Optional
  import opened Numbers
  import opened Domain
  import opened Volume

  /** Units between a number and its separator break the pattern, so a
      catalogue measure such as "20mm x 100mm x 3m" has no volume of its own. */
  lemma UnitsBreakThePattern()
    ensures forall m :: !IsPattern(Measure, m)
    ensures CalculateVolume(Item(Measure, "10", "", "", false)) == 0.0
  {
    NoDimensionsInMeasure();
  }

  const Measure := "20mm x 100mm x 3m"

  lemma NoDimensionsInMeasure()
    ensures FindDims(Measure, 0).None?
  {
    forall j | 0 <= j < |Measure| ensures MatchAt(Measure, j).None? {
      if j <= 1 {
        NoMatchInRun(j, 2);
      } else if 7 <= j <= 9 {
        NoMatchInRun(j, 10);
      } else if j == 15 {
        NoMatchInRun(j, 16);
      } else {
        NoDigitElsewhere(j);
      }
    }
  }

  lemma NoDigitElsewhere(j: nat)
    requires j < |Measure| && !(j <= 1 || 7 <= j <= 9 || j == 15)
    ensures !IsDigit(Measure[j])
  {
  }

  /** Each digit run of the measure is followed by a unit letter. */
  lemma NoMatchInRun(j: nat, e: nat)
    requires (j <= 1 && e == 2) || (7 <= j <= 9 && e == 10) || (j == 15 && e == 16)
    ensures MatchAt(Measure, j).None?
  {
    DigitsEndAt(Measure, j, e);
    NoMatchAtStop(Measure, j, e);
  }

  const Board := "Tabua 1000x200x20"

  lemma BoardMatch()
    ensures FindDims(Board, 0) == Some(Match(6, 10, 11, 14, 15, 17))
  {
    BoardMatchAt();
    forall j | 0 <= j < 6 ensures MatchAt(Board, j).None? {
      assert !IsDigit(Board[j]);
    }
    FirstMatch(Board, 0, Match(6, 10, 11, 14, 15, 17));
  }

  lemma BoardMatchAt()
    ensures MatchAt(Board, 6) == Some(Match(6, 10, 11, 14, 15, 17))
  {
    BoardRuns();
    assert NumberEnd(Board, 6) == 10;
    assert SeparatorEnd(Board, 10) == Some(11);
    assert NumberEnd(Board, 11) == 14;
    assert SeparatorEnd(Board, 14) == Some(15);
    assert NumberEnd(Board, 15) == 17;
  }

  /** Where the board's digit runs and (empty) space runs stop. */
  lemma BoardRuns()
    ensures DigitsEnd(Board, 6) == 10 && DigitsEnd(Board, 11) == 14 && DigitsEnd(Board, 15) == 17
    ensures SpacesEnd(Board, 10) == 10 && SpacesEnd(Board, 11) == 11
    ensures SpacesEnd(Board, 14) == 14 && SpacesEnd(Board, 15) == 15
  {
    DigitsEndAt(Board, 6, 10);
    DigitsEndAt(Board, 11, 14);
    DigitsEndAt(Board, 15, 17);
    SpacesEndAt(Board, 10, 10);
    SpacesEndAt(Board, 11, 11);
    SpacesEndAt(Board, 14, 14);
    SpacesEndAt(Board, 15, 15);
  }

  lemma BoardTokens()
    ensures TokenValue("1000") == 1000.0 && TokenValue("200") == 200.0 && TokenValue("20") == 20.0
    ensures FloatOrZero("10") == 10.0
  {
    Token1000();
    Token200();
    Token20();
    Quantity10();
  }

  lemma Token1000() ensures TokenValue("1000") == 1000.0 {
    WholeTokenValue("1000");
    BoardDigits();
  }

  lemma Token200() ensures TokenValue("200") == 200.0 {
    WholeTokenValue("200");
    BoardDigits();
  }

  lemma Token20() ensures TokenValue("20") == 20.0 {
    WholeTokenValue("20");
    BoardDigits();
  }

  lemma Quantity10() ensures FloatOrZero("10") == 10.0 {
    ParseFloatOfDigits("10");
    BoardDigits();
  }

  lemma BoardDigits()
    ensures DigitsValue("1000") == 1000 && DigitsValue("200") == 200
    ensures DigitsValue("20") == 20 && DigitsValue("10") == 10
  {
    assert "1000"[..3] == "100" && "100"[..2] == "10" && "10"[..1] == "1" && "1"[..0] == "";
    assert "200"[..2] == "20" && "20"[..1] == "2" && "2"[..0] == "";
  }

  /** A 1000 x 200 x 20 mm board, ten of them: 1 * 0.2 * 0.02 * 10 cubic metres. */
  lemma BoardExample()
    ensures CalculateVolume(Item("Tabua 1000x200x20", "10", "", "", false)) == 0.04
  {
    BoardVolume();
  }

  lemma BoardVolume()
    ensures DimensionVolume(Board, "10") == 0.04
  {
    BoardMatch();
    BoardGroups();
    BoardMetres();
    Quantity10();
    VolumeOfMatch(Board, "10", Match(6, 10, 11, 14, 15, 17), 1.0, 0.2, 0.02, 10.0);
    assert 1.0 * 0.2 * 0.02 * 10.0 == 0.04;
  }

  lemma BoardGroups()
    ensures Board[6..10] == "1000" && Board[11..14] == "200" && Board[15..17] == "20"
  {
  }

  /** The volume of a description whose leftmost match has groups of `a`,
      `b` and `c` metres, for a quantity reading as `q`. */
  lemma VolumeOfMatch(desc: string, qtd: string, m: Match, a: real, b: real, c: real, q: real)
    requires FindDims(desc, 0) == Some(m)
    requires Metres(desc[m.start..m.aEnd]) == a && Metres(desc[m.bStart..m.bEnd]) == b
    requires Metres(desc[m.cStart..m.cEnd]) == c && FloatOrZero(qtd) == q
    ensures DimensionVolume(desc, qtd) == a * b * c * q
  {
  }

  lemma BoardMetres()
    ensures Metres("1000") == 1.0 && Metres("200") == 0.2 && Metres("20") == 0.02
  {
    BoardTokens();
  }

  lemma OneAndAHalf()
    ensures ParseFloat("1.5") == Some(1.5)
  {
    OneAndAHalfSpelling();
    OneAndAHalfDigits();
    ParseFloatOfDecimalText("1.5", "1", "5", 1.5);
  }

  lemma OneAndAHalfSpelling()
    ensures "1" + "." + "5" == "1.5"
    ensures AllDigits("1") && AllDigits("5")
  {
  }

  lemma OneAndAHalfDigits()
    ensures DecimalValue("1", "5") == 1.5
  {
    assert "1"[..0] == "" && "5"[..0] == "";
    assert Pow10(1) == 10;
  }

  /** A usable override wins over the description, with a decimal comma. */
  lemma OverrideExample()
    ensures CalculateVolume(Item("Tabua 1000x200x20", "10", "", "1,5", false)) == 1.5
  {
    assert "1,5" == "1" + [','] + "5";
    ReplaceBehindDigits("1", ',', "5");
    assert "1" + "." + "5" == "1.5";
    OneAndAHalf();
  }
}
