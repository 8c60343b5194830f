/** What the program's table makes the two conversions do on the operand
    range 1 .. 10 and on the results the calculator scenarios need.  Facts
    about decoding are first proved for any table equal entry by entry to
    the program's one, where each symbol test is a comparison of one or two
    characters, and then applied to the table itself. */
module RoundTrip {
  import opened Numerals
  import opened Outcomes
  import opened RomanWriter
  import opened RomanReader

  // Numerals written with a table equal to the program's one.

  lemma WritesOne(t: seq<Entry>)
    requires IsProgramTable(t) && WellFormed(t)
    ensures Remaining(t, 1, Top) == "I"
  {
    assert Fall(t, 1, 0) == 0;
    assert Fall(t, 1, 1) == 0;
    assert Fall(t, 1, 2) == 0;
    assert Fall(t, 1, 3) == 0;
    assert Fall(t, 1, 4) == 0;
    assert Fall(t, 1, 5) == 0;
    assert Fall(t, 1, 6) == 0;
    assert Fall(t, 1, 7) == 0;
    assert Fall(t, 1, 8) == 0;
    ChoiceStep(t, 1, 8);
  }

  lemma WritesTwo(t: seq<Entry>)
    requires IsProgramTable(t) && WellFormed(t)
    ensures Remaining(t, 2, Top) == "II"
  {
    assert Fall(t, 2, 0) == 0;
    assert Fall(t, 2, 1) == 0;
    assert Fall(t, 2, 2) == 0;
    assert Fall(t, 2, 3) == 0;
    assert Fall(t, 2, 4) == 0;
    assert Fall(t, 2, 5) == 0;
    assert Fall(t, 2, 6) == 0;
    assert Fall(t, 2, 7) == 0;
    assert Fall(t, 2, 8) == 0;
    ChoiceStep(t, 2, 8);
    assert Fall(t, 1, 0) == 0;
    ChoiceStep(t, 1, 0);
  }

  lemma WritesThree(t: seq<Entry>)
    requires IsProgramTable(t) && WellFormed(t)
    ensures Remaining(t, 3, Top) == "III"
  {
    assert Fall(t, 3, 0) == 0;
    assert Fall(t, 3, 1) == 0;
    assert Fall(t, 3, 2) == 0;
    assert Fall(t, 3, 3) == 0;
    assert Fall(t, 3, 4) == 0;
    assert Fall(t, 3, 5) == 0;
    assert Fall(t, 3, 6) == 0;
    assert Fall(t, 3, 7) == 0;
    assert Fall(t, 3, 8) == 0;
    ChoiceStep(t, 3, 8);
    assert Fall(t, 2, 0) == 0;
    ChoiceStep(t, 2, 0);
    assert Fall(t, 1, 0) == 0;
    ChoiceStep(t, 1, 0);
  }

  lemma WritesFour(t: seq<Entry>)
    requires IsProgramTable(t) && WellFormed(t)
    ensures Remaining(t, 4, Top) == "IV"
  {
    assert Fall(t, 4, 1) == 1;
    assert Fall(t, 4, 2) == 1;
    assert Fall(t, 4, 3) == 1;
    assert Fall(t, 4, 4) == 1;
    assert Fall(t, 4, 5) == 1;
    assert Fall(t, 4, 6) == 1;
    assert Fall(t, 4, 7) == 1;
    assert Fall(t, 4, 8) == 1;
    ChoiceStep(t, 4, 8);
  }

  lemma WritesFive(t: seq<Entry>)
    requires IsProgramTable(t) && WellFormed(t)
    ensures Remaining(t, 5, Top) == "V"
  {
    assert Fall(t, 5, 2) == 2;
    assert Fall(t, 5, 3) == 2;
    assert Fall(t, 5, 4) == 2;
    assert Fall(t, 5, 5) == 2;
    assert Fall(t, 5, 6) == 2;
    assert Fall(t, 5, 7) == 2;
    assert Fall(t, 5, 8) == 2;
    ChoiceStep(t, 5, 8);
  }

  lemma WritesSix(t: seq<Entry>)
    requires IsProgramTable(t) && WellFormed(t)
    ensures Remaining(t, 6, Top) == "VI"
  {
    assert Fall(t, 6, 2) == 2;
    assert Fall(t, 6, 3) == 2;
    assert Fall(t, 6, 4) == 2;
    assert Fall(t, 6, 5) == 2;
    assert Fall(t, 6, 6) == 2;
    assert Fall(t, 6, 7) == 2;
    assert Fall(t, 6, 8) == 2;
    ChoiceStep(t, 6, 8);
    assert Fall(t, 1, 0) == 0;
    assert Fall(t, 1, 1) == 0;
    assert Fall(t, 1, 2) == 0;
    ChoiceStep(t, 1, 2);
  }

  lemma WritesSeven(t: seq<Entry>)
    requires IsProgramTable(t) && WellFormed(t)
    ensures Remaining(t, 7, Top) == "VII"
  {
    assert Fall(t, 7, 2) == 2;
    assert Fall(t, 7, 3) == 2;
    assert Fall(t, 7, 4) == 2;
    assert Fall(t, 7, 5) == 2;
    assert Fall(t, 7, 6) == 2;
    assert Fall(t, 7, 7) == 2;
    assert Fall(t, 7, 8) == 2;
    ChoiceStep(t, 7, 8);
    assert Fall(t, 2, 0) == 0;
    assert Fall(t, 2, 1) == 0;
    assert Fall(t, 2, 2) == 0;
    ChoiceStep(t, 2, 2);
    assert Fall(t, 1, 0) == 0;
    ChoiceStep(t, 1, 0);
  }

  lemma WritesEight(t: seq<Entry>)
    requires IsProgramTable(t) && WellFormed(t)
    ensures Remaining(t, 8, Top) == "VIII"
  {
    assert Fall(t, 8, 2) == 2;
    assert Fall(t, 8, 3) == 2;
    assert Fall(t, 8, 4) == 2;
    assert Fall(t, 8, 5) == 2;
    assert Fall(t, 8, 6) == 2;
    assert Fall(t, 8, 7) == 2;
    assert Fall(t, 8, 8) == 2;
    ChoiceStep(t, 8, 8);
    assert Fall(t, 3, 0) == 0;
    assert Fall(t, 3, 1) == 0;
    assert Fall(t, 3, 2) == 0;
    ChoiceStep(t, 3, 2);
    assert Fall(t, 2, 0) == 0;
    ChoiceStep(t, 2, 0);
    assert Fall(t, 1, 0) == 0;
    ChoiceStep(t, 1, 0);
  }

  lemma WritesNine(t: seq<Entry>)
    requires IsProgramTable(t) && WellFormed(t)
    ensures Remaining(t, 9, Top) == "IV"
  {
    assert Fall(t, 9, 3) == 3;
    assert Fall(t, 9, 4) == 3;
    assert Fall(t, 9, 5) == 3;
    assert Fall(t, 9, 6) == 3;
    assert Fall(t, 9, 7) == 3;
    assert Fall(t, 9, 8) == 3;
    ChoiceStep(t, 9, 8);
  }

  lemma WritesTen(t: seq<Entry>)
    requires IsProgramTable(t) && WellFormed(t)
    ensures Remaining(t, 10, Top) == "X"
  {
    assert Fall(t, 10, 4) == 4;
    assert Fall(t, 10, 5) == 4;
    assert Fall(t, 10, 6) == 4;
    assert Fall(t, 10, 7) == 4;
    assert Fall(t, 10, 8) == 4;
    ChoiceStep(t, 10, 8);
  }

  lemma WritesTwelve(t: seq<Entry>)
    requires IsProgramTable(t) && WellFormed(t)
    ensures Remaining(t, 12, Top) == "XII"
  {
    assert Fall(t, 12, 4) == 4;
    assert Fall(t, 12, 5) == 4;
    assert Fall(t, 12, 6) == 4;
    assert Fall(t, 12, 7) == 4;
    assert Fall(t, 12, 8) == 4;
    ChoiceStep(t, 12, 8);
    assert Fall(t, 2, 0) == 0;
    assert Fall(t, 2, 1) == 0;
    assert Fall(t, 2, 2) == 0;
    assert Fall(t, 2, 3) == 0;
    assert Fall(t, 2, 4) == 0;
    ChoiceStep(t, 2, 4);
    assert Fall(t, 1, 0) == 0;
    ChoiceStep(t, 1, 0);
  }

  lemma WritesFifty(t: seq<Entry>)
    requires IsProgramTable(t) && WellFormed(t)
    ensures Remaining(t, 50, Top) == "XLX"
  {
    assert Fall(t, 50, 6) == 6;
    assert Fall(t, 50, 7) == 6;
    assert Fall(t, 50, 8) == 6;
    ChoiceStep(t, 50, 8);
    assert Fall(t, 10, 4) == 4;
    assert Fall(t, 10, 5) == 4;
    assert Fall(t, 10, 6) == 4;
    ChoiceStep(t, 10, 6);
  }

  lemma NumeralOne()
    ensures RomanNumeral(1) == "I"
  {
    ProgramTable(Table);
    WritesOne(Table);
  }

  lemma NumeralTwo()
    ensures RomanNumeral(2) == "II"
  {
    ProgramTable(Table);
    WritesTwo(Table);
  }

  lemma NumeralThree()
    ensures RomanNumeral(3) == "III"
  {
    ProgramTable(Table);
    WritesThree(Table);
  }

  lemma NumeralFour()
    ensures RomanNumeral(4) == "IV"
  {
    ProgramTable(Table);
    WritesFour(Table);
  }

  lemma NumeralFive()
    ensures RomanNumeral(5) == "V"
  {
    ProgramTable(Table);
    WritesFive(Table);
  }

  lemma NumeralSix()
    ensures RomanNumeral(6) == "VI"
  {
    ProgramTable(Table);
    WritesSix(Table);
  }

  lemma NumeralSeven()
    ensures RomanNumeral(7) == "VII"
  {
    ProgramTable(Table);
    WritesSeven(Table);
  }

  lemma NumeralEight()
    ensures RomanNumeral(8) == "VIII"
  {
    ProgramTable(Table);
    WritesEight(Table);
  }

  lemma NumeralNine()
    ensures RomanNumeral(9) == "IV"
  {
    ProgramTable(Table);
    WritesNine(Table);
  }

  lemma NumeralTen()
    ensures RomanNumeral(10) == "X"
  {
    ProgramTable(Table);
    WritesTen(Table);
  }

  lemma NumeralTwelve()
    ensures RomanNumeral(12) == "XII"
  {
    ProgramTable(Table);
    WritesTwelve(Table);
  }

  lemma NumeralFifty()
    ensures RomanNumeral(50) == "XLX"
  {
    ProgramTable(Table);
    WritesFifty(Table);
  }

  // Numerals read with a table equal to the program's one.

  lemma ReadsEmpty(t: seq<Entry>)
    requires IsProgramTable(t) && WellFormed(t)
    ensures RemainingValue(t, "", 1, Top) == 0
  {
  }

  lemma ReadsI(t: seq<Entry>)
    requires IsProgramTable(t) && WellFormed(t)
    ensures RemainingValue(t, "I", 1, Top) == 1
  {
    SymbolAtChars(t, "I", 0, 0);
    assert Pick(t, "I", 0, 0) == 0;
    SymbolAtChars(t, "I", 0, 1);
    assert Pick(t, "I", 0, 1) == 0;
    SymbolAtChars(t, "I", 0, 2);
    assert Pick(t, "I", 0, 2) == 0;
    SymbolAtChars(t, "I", 0, 3);
    assert Pick(t, "I", 0, 3) == 0;
    SymbolAtChars(t, "I", 0, 4);
    assert Pick(t, "I", 0, 4) == 0;
    SymbolAtChars(t, "I", 0, 5);
    assert Pick(t, "I", 0, 5) == 0;
    SymbolAtChars(t, "I", 0, 6);
    assert Pick(t, "I", 0, 6) == 0;
    SymbolAtChars(t, "I", 0, 7);
    assert Pick(t, "I", 0, 7) == 0;
    SymbolAtChars(t, "I", 0, 8);
    assert Pick(t, "I", 0, 8) == 0;
    DecomposeStep(t, "I", 1, 8);
    DecomposeFromZero(t, "I", 2);
  }

  lemma ReadsII(t: seq<Entry>)
    requires IsProgramTable(t) && WellFormed(t)
    ensures RemainingValue(t, "II", 1, Top) == 2
  {
    SymbolAtChars(t, "II", 0, 0);
    assert Pick(t, "II", 0, 0) == 0;
    SymbolAtChars(t, "II", 0, 1);
    assert Pick(t, "II", 0, 1) == 0;
    SymbolAtChars(t, "II", 0, 2);
    assert Pick(t, "II", 0, 2) == 0;
    SymbolAtChars(t, "II", 0, 3);
    assert Pick(t, "II", 0, 3) == 0;
    SymbolAtChars(t, "II", 0, 4);
    assert Pick(t, "II", 0, 4) == 0;
    SymbolAtChars(t, "II", 0, 5);
    assert Pick(t, "II", 0, 5) == 0;
    SymbolAtChars(t, "II", 0, 6);
    assert Pick(t, "II", 0, 6) == 0;
    SymbolAtChars(t, "II", 0, 7);
    assert Pick(t, "II", 0, 7) == 0;
    SymbolAtChars(t, "II", 0, 8);
    assert Pick(t, "II", 0, 8) == 0;
    DecomposeStep(t, "II", 1, 8);
    DecomposeFromZero(t, "II", 2);
  }

  lemma ReadsIII(t: seq<Entry>)
    requires IsProgramTable(t) && WellFormed(t)
    ensures RemainingValue(t, "III", 1, Top) == 3
  {
    SymbolAtChars(t, "III", 0, 0);
    assert Pick(t, "III", 0, 0) == 0;
    SymbolAtChars(t, "III", 0, 1);
    assert Pick(t, "III", 0, 1) == 0;
    SymbolAtChars(t, "III", 0, 2);
    assert Pick(t, "III", 0, 2) == 0;
    SymbolAtChars(t, "III", 0, 3);
    assert Pick(t, "III", 0, 3) == 0;
    SymbolAtChars(t, "III", 0, 4);
    assert Pick(t, "III", 0, 4) == 0;
    SymbolAtChars(t, "III", 0, 5);
    assert Pick(t, "III", 0, 5) == 0;
    SymbolAtChars(t, "III", 0, 6);
    assert Pick(t, "III", 0, 6) == 0;
    SymbolAtChars(t, "III", 0, 7);
    assert Pick(t, "III", 0, 7) == 0;
    SymbolAtChars(t, "III", 0, 8);
    assert Pick(t, "III", 0, 8) == 0;
    DecomposeStep(t, "III", 1, 8);
    DecomposeFromZero(t, "III", 2);
  }

  lemma ReadsIV(t: seq<Entry>)
    requires IsProgramTable(t) && WellFormed(t)
    ensures RemainingValue(t, "IV", 1, Top) == 9
  {
    SymbolAtChars(t, "IV", 0, 3);
    assert Pick(t, "IV", 0, 3) == 3;
    SymbolAtChars(t, "IV", 0, 4);
    assert Pick(t, "IV", 0, 4) == 3;
    SymbolAtChars(t, "IV", 0, 5);
    assert Pick(t, "IV", 0, 5) == 3;
    SymbolAtChars(t, "IV", 0, 6);
    assert Pick(t, "IV", 0, 6) == 3;
    SymbolAtChars(t, "IV", 0, 7);
    assert Pick(t, "IV", 0, 7) == 3;
    SymbolAtChars(t, "IV", 0, 8);
    assert Pick(t, "IV", 0, 8) == 3;
    DecomposeStep(t, "IV", 1, 8);
  }

  lemma ReadsV(t: seq<Entry>)
    requires IsProgramTable(t) && WellFormed(t)
    ensures RemainingValue(t, "V", 1, Top) == 5
  {
    SymbolAtChars(t, "V", 0, 2);
    assert Pick(t, "V", 0, 2) == 2;
    SymbolAtChars(t, "V", 0, 3);
    assert Pick(t, "V", 0, 3) == 2;
    SymbolAtChars(t, "V", 0, 4);
    assert Pick(t, "V", 0, 4) == 2;
    SymbolAtChars(t, "V", 0, 5);
    assert Pick(t, "V", 0, 5) == 2;
    SymbolAtChars(t, "V", 0, 6);
    assert Pick(t, "V", 0, 6) == 2;
    SymbolAtChars(t, "V", 0, 7);
    assert Pick(t, "V", 0, 7) == 2;
    SymbolAtChars(t, "V", 0, 8);
    assert Pick(t, "V", 0, 8) == 2;
    DecomposeStep(t, "V", 1, 8);
  }

  lemma ReadsVI(t: seq<Entry>)
    requires IsProgramTable(t) && WellFormed(t)
    ensures RemainingValue(t, "VI", 1, Top) == 6
  {
    SymbolAtChars(t, "VI", 0, 2);
    assert Pick(t, "VI", 0, 2) == 2;
    SymbolAtChars(t, "VI", 0, 3);
    assert Pick(t, "VI", 0, 3) == 2;
    SymbolAtChars(t, "VI", 0, 4);
    assert Pick(t, "VI", 0, 4) == 2;
    SymbolAtChars(t, "VI", 0, 5);
    assert Pick(t, "VI", 0, 5) == 2;
    SymbolAtChars(t, "VI", 0, 6);
    assert Pick(t, "VI", 0, 6) == 2;
    SymbolAtChars(t, "VI", 0, 7);
    assert Pick(t, "VI", 0, 7) == 2;
    SymbolAtChars(t, "VI", 0, 8);
    assert Pick(t, "VI", 0, 8) == 2;
    DecomposeStep(t, "VI", 1, 8);
    SymbolAtChars(t, "VI", 1, 0);
    assert Pick(t, "VI", 1, 0) == 0;
    SymbolAtChars(t, "VI", 1, 1);
    assert Pick(t, "VI", 1, 1) == 0;
    SymbolAtChars(t, "VI", 1, 2);
    assert Pick(t, "VI", 1, 2) == 0;
    DecomposeStep(t, "VI", 2, 2);
    DecomposeFromZero(t, "VI", 3);
  }

  lemma ReadsVII(t: seq<Entry>)
    requires IsProgramTable(t) && WellFormed(t)
    ensures RemainingValue(t, "VII", 1, Top) == 7
  {
    SymbolAtChars(t, "VII", 0, 2);
    assert Pick(t, "VII", 0, 2) == 2;
    SymbolAtChars(t, "VII", 0, 3);
    assert Pick(t, "VII", 0, 3) == 2;
    SymbolAtChars(t, "VII", 0, 4);
    assert Pick(t, "VII", 0, 4) == 2;
    SymbolAtChars(t, "VII", 0, 5);
    assert Pick(t, "VII", 0, 5) == 2;
    SymbolAtChars(t, "VII", 0, 6);
    assert Pick(t, "VII", 0, 6) == 2;
    SymbolAtChars(t, "VII", 0, 7);
    assert Pick(t, "VII", 0, 7) == 2;
    SymbolAtChars(t, "VII", 0, 8);
    assert Pick(t, "VII", 0, 8) == 2;
    DecomposeStep(t, "VII", 1, 8);
    SymbolAtChars(t, "VII", 1, 0);
    assert Pick(t, "VII", 1, 0) == 0;
    SymbolAtChars(t, "VII", 1, 1);
    assert Pick(t, "VII", 1, 1) == 0;
    SymbolAtChars(t, "VII", 1, 2);
    assert Pick(t, "VII", 1, 2) == 0;
    DecomposeStep(t, "VII", 2, 2);
    DecomposeFromZero(t, "VII", 3);
  }

  lemma ReadsVIII(t: seq<Entry>)
    requires IsProgramTable(t) && WellFormed(t)
    ensures RemainingValue(t, "VIII", 1, Top) == 8
  {
    SymbolAtChars(t, "VIII", 0, 2);
    assert Pick(t, "VIII", 0, 2) == 2;
    SymbolAtChars(t, "VIII", 0, 3);
    assert Pick(t, "VIII", 0, 3) == 2;
    SymbolAtChars(t, "VIII", 0, 4);
    assert Pick(t, "VIII", 0, 4) == 2;
    SymbolAtChars(t, "VIII", 0, 5);
    assert Pick(t, "VIII", 0, 5) == 2;
    SymbolAtChars(t, "VIII", 0, 6);
    assert Pick(t, "VIII", 0, 6) == 2;
    SymbolAtChars(t, "VIII", 0, 7);
    assert Pick(t, "VIII", 0, 7) == 2;
    SymbolAtChars(t, "VIII", 0, 8);
    assert Pick(t, "VIII", 0, 8) == 2;
    DecomposeStep(t, "VIII", 1, 8);
    SymbolAtChars(t, "VIII", 1, 0);
    assert Pick(t, "VIII", 1, 0) == 0;
    SymbolAtChars(t, "VIII", 1, 1);
    assert Pick(t, "VIII", 1, 1) == 0;
    SymbolAtChars(t, "VIII", 1, 2);
    assert Pick(t, "VIII", 1, 2) == 0;
    DecomposeStep(t, "VIII", 2, 2);
    DecomposeFromZero(t, "VIII", 3);
  }

  lemma ReadsX(t: seq<Entry>)
    requires IsProgramTable(t) && WellFormed(t)
    ensures RemainingValue(t, "X", 1, Top) == 10
  {
    SymbolAtChars(t, "X", 0, 4);
    assert Pick(t, "X", 0, 4) == 4;
    SymbolAtChars(t, "X", 0, 5);
    assert Pick(t, "X", 0, 5) == 4;
    SymbolAtChars(t, "X", 0, 6);
    assert Pick(t, "X", 0, 6) == 4;
    SymbolAtChars(t, "X", 0, 7);
    assert Pick(t, "X", 0, 7) == 4;
    SymbolAtChars(t, "X", 0, 8);
    assert Pick(t, "X", 0, 8) == 4;
    DecomposeStep(t, "X", 1, 8);
  }

  lemma ReadsIX(t: seq<Entry>)
    requires IsProgramTable(t) && WellFormed(t)
    ensures RemainingValue(t, "IX", 1, Top) == 2
  {
    SymbolAtChars(t, "IX", 0, 0);
    assert Pick(t, "IX", 0, 0) == 0;
    SymbolAtChars(t, "IX", 0, 1);
    assert Pick(t, "IX", 0, 1) == 0;
    SymbolAtChars(t, "IX", 0, 2);
    assert Pick(t, "IX", 0, 2) == 0;
    SymbolAtChars(t, "IX", 0, 3);
    assert Pick(t, "IX", 0, 3) == 0;
    SymbolAtChars(t, "IX", 0, 4);
    assert Pick(t, "IX", 0, 4) == 0;
    SymbolAtChars(t, "IX", 0, 5);
    assert Pick(t, "IX", 0, 5) == 0;
    SymbolAtChars(t, "IX", 0, 6);
    assert Pick(t, "IX", 0, 6) == 0;
    SymbolAtChars(t, "IX", 0, 7);
    assert Pick(t, "IX", 0, 7) == 0;
    SymbolAtChars(t, "IX", 0, 8);
    assert Pick(t, "IX", 0, 8) == 0;
    DecomposeStep(t, "IX", 1, 8);
    DecomposeFromZero(t, "IX", 2);
  }

  lemma ReadsXII(t: seq<Entry>)
    requires IsProgramTable(t) && WellFormed(t)
    ensures RemainingValue(t, "XII", 1, Top) == 12
  {
    SymbolAtChars(t, "XII", 0, 4);
    assert Pick(t, "XII", 0, 4) == 4;
    SymbolAtChars(t, "XII", 0, 5);
    assert Pick(t, "XII", 0, 5) == 4;
    SymbolAtChars(t, "XII", 0, 6);
    assert Pick(t, "XII", 0, 6) == 4;
    SymbolAtChars(t, "XII", 0, 7);
    assert Pick(t, "XII", 0, 7) == 4;
    SymbolAtChars(t, "XII", 0, 8);
    assert Pick(t, "XII", 0, 8) == 4;
    DecomposeStep(t, "XII", 1, 8);
    SymbolAtChars(t, "XII", 1, 0);
    assert Pick(t, "XII", 1, 0) == 0;
    SymbolAtChars(t, "XII", 1, 1);
    assert Pick(t, "XII", 1, 1) == 0;
    SymbolAtChars(t, "XII", 1, 2);
    assert Pick(t, "XII", 1, 2) == 0;
    SymbolAtChars(t, "XII", 1, 3);
    assert Pick(t, "XII", 1, 3) == 0;
    SymbolAtChars(t, "XII", 1, 4);
    assert Pick(t, "XII", 1, 4) == 0;
    DecomposeStep(t, "XII", 2, 4);
    DecomposeFromZero(t, "XII", 3);
  }

  lemma ReadsXLX(t: seq<Entry>)
    requires IsProgramTable(t) && WellFormed(t)
    ensures RemainingValue(t, "XLX", 1, Top) == 50
  {
    SymbolAtChars(t, "XLX", 0, 6);
    assert Pick(t, "XLX", 0, 6) == 6;
    SymbolAtChars(t, "XLX", 0, 7);
    assert Pick(t, "XLX", 0, 7) == 6;
    SymbolAtChars(t, "XLX", 0, 8);
    assert Pick(t, "XLX", 0, 8) == 6;
    DecomposeStep(t, "XLX", 1, 8);
    SymbolAtChars(t, "XLX", 2, 4);
    assert Pick(t, "XLX", 2, 4) == 4;
    SymbolAtChars(t, "XLX", 2, 5);
    assert Pick(t, "XLX", 2, 5) == 4;
    SymbolAtChars(t, "XLX", 2, 6);
    assert Pick(t, "XLX", 2, 6) == 4;
    DecomposeStep(t, "XLX", 3, 6);
  }

  // The same readings with the program's table.

  lemma ParsesEmpty()
    ensures ParseRoman("") == Some(0)
  {
    ProgramTable(Table);
    ParseRomanAccepts("");
    ReadsEmpty(Table);
  }

  lemma ParsesI()
    ensures ParseRoman("I") == Some(1)
  {
    ProgramTable(Table);
    ParseRomanAccepts("I");
    ReadsI(Table);
  }

  lemma ParsesII()
    ensures ParseRoman("II") == Some(2)
  {
    ProgramTable(Table);
    ParseRomanAccepts("II");
    ReadsII(Table);
  }

  lemma ParsesIII()
    ensures ParseRoman("III") == Some(3)
  {
    ProgramTable(Table);
    ParseRomanAccepts("III");
    ReadsIII(Table);
  }

  lemma ParsesIV()
    ensures ParseRoman("IV") == Some(9)
  {
    ProgramTable(Table);
    ParseRomanAccepts("IV");
    ReadsIV(Table);
  }

  lemma ParsesV()
    ensures ParseRoman("V") == Some(5)
  {
    ProgramTable(Table);
    ParseRomanAccepts("V");
    ReadsV(Table);
  }

  lemma ParsesVI()
    ensures ParseRoman("VI") == Some(6)
  {
    ProgramTable(Table);
    ParseRomanAccepts("VI");
    ReadsVI(Table);
  }

  lemma ParsesVII()
    ensures ParseRoman("VII") == Some(7)
  {
    ProgramTable(Table);
    ParseRomanAccepts("VII");
    ReadsVII(Table);
  }

  lemma ParsesVIII()
    ensures ParseRoman("VIII") == Some(8)
  {
    ProgramTable(Table);
    ParseRomanAccepts("VIII");
    ReadsVIII(Table);
  }

  lemma ParsesX()
    ensures ParseRoman("X") == Some(10)
  {
    ProgramTable(Table);
    ParseRomanAccepts("X");
    ReadsX(Table);
  }

  lemma ParsesIX()
    ensures ParseRoman("IX") == Some(2)
  {
    ProgramTable(Table);
    ParseRomanAccepts("IX");
    ReadsIX(Table);
  }

  lemma ParsesXII()
    ensures ParseRoman("XII") == Some(12)
  {
    ProgramTable(Table);
    ParseRomanAccepts("XII");
    ReadsXII(Table);
  }

  lemma ParsesXLX()
    ensures ParseRoman("XLX") == Some(50)
  {
    ProgramTable(Table);
    ParseRomanAccepts("XLX");
    ReadsXLX(Table);
  }

  // What the two conversions make of each other on the operand range.

  /** Writing a value of the operand range and reading the numeral back gives
      the value again, except for 4. */
  lemma RoundTripOnOperands(n: int)
    requires 1 <= n <= 10 && n != 4
    ensures ParseRoman(RomanNumeral(n)) == Some(n)
  {
    if n == 1 { NumeralOne(); ParsesI(); }
    else if n == 2 { NumeralTwo(); ParsesII(); }
    else if n == 3 { NumeralThree(); ParsesIII(); }
    else if n == 5 { NumeralFive(); ParsesV(); }
    else if n == 6 { NumeralSix(); ParsesVI(); }
    else if n == 7 { NumeralSeven(); ParsesVII(); }
    else if n == 8 { NumeralEight(); ParsesVIII(); }
    else if n == 9 { NumeralNine(); ParsesIV(); }
    else { NumeralTen(); ParsesX(); }
  }

  /** 4 is written "IV", which reads back as 9: the entry for 9 carries the
      symbol "IV" and is tried before the entry for 4. */
  lemma RoundTripFailsAtFour()
    ensures RomanNumeral(4) == "IV"
    ensures ParseRoman(RomanNumeral(4)) == Some(9)
  {
    NumeralFour();
    ParsesIV();
  }

  /** No entry carries "IX", so it reads as two ones. */
  lemma NineWrittenIXReadsTwo()
    ensures ParseRoman("IX") == Some(2)
    ensures RomanNumeral(9) != "IX"
  {
    ParsesIX();
    NumeralNine();
  }
}
