/** Arabic to Roman: greedy subtraction over the numeral table, whose index
    is never reset between the symbols it emits. */
module RomanWriter {
  import opened Numerals

  /** The index the inner loop of the conversion stops at: walking down from
      `i`, the first entry whose value does not exceed `n`. */
  function Fall(t: seq<Entry>, n: int, i: Index): (r: Index)
    requires WellFormed(t) && n >= 1
    ensures r <= i && 1 <= t[r].arabic <= n
    decreases i
  {
    if t[i].arabic > n then Fall(t, n, i - 1) else i
  }

  /** The entry the inner loop stops at is the first one, walking down from
      `i`, whose value fits in `n`: every entry it passed over is too large. */
  lemma {:induction false} FallFirstFit(t: seq<Entry>, n: int, i: Index)
    requires WellFormed(t) && n >= 1
    ensures forall k: Index :: Fall(t, n, i) < k <= i ==> t[k].arabic > n
    decreases i
  {
    if t[i].arabic > n {
      FallFirstFit(t, n, i - 1);
    }
  }

  /** The table indices the conversion of `n` appends, starting at index `i`. */
  function RomanChoice(t: seq<Entry>, n: int, i: Index): seq<Index>
    requires WellFormed(t)
    decreases n
  {
    if n <= 0 then []
    else
      var j := Fall(t, n, i);
      [j] + RomanChoice(t, n - t[j].arabic, j)
  }

  /** The symbols the conversion still appends for what remains, `n`, from
      the table index `i` on. */
  function Remaining(t: seq<Entry>, n: int, i: Index): string
    requires WellFormed(t)
  {
    Symbols(t, RomanChoice(t, n, i))
  }

  /** The numeral the program prints for `n`. */
  function RomanNumeral(n: int): string
  {
    TableWellFormed();
    Remaining(Table, n, Top)
  }

  /** The table entries the conversion appends for `n`, in order. */
  function Chosen(n: int): seq<Index>
  {
    TableWellFormed();
    RomanChoice(Table, n, Top)
  }

  /** What the conversion appends: nothing for n <= 0; otherwise entries whose
      values add up to n. */
  lemma {:induction false} RomanChoiceSum(t: seq<Entry>, n: int, i: Index)
    requires WellFormed(t)
    ensures n <= 0 ==> RomanChoice(t, n, i) == []
    ensures n >= 1 ==> RomanChoice(t, n, i) != [] && Sum(t, RomanChoice(t, n, i)) == n
    decreases n
  {
    if n >= 1 {
      var j := Fall(t, n, i);
      var rest := RomanChoice(t, n - t[j].arabic, j);
      assert RomanChoice(t, n, i) == [j] + rest;
      RomanChoiceSum(t, n - t[j].arabic, j);
      SumPrepend(t, j, rest);
    }
  }

  /** The table index never increases during the conversion: the appended
      indices start at or below `i` and never go back up. */
  lemma {:induction false} RomanChoiceDescends(t: seq<Entry>, n: int, i: Index)
    requires WellFormed(t)
    ensures AllAtMost(RomanChoice(t, n, i), i)
    ensures NonIncreasing(RomanChoice(t, n, i))
    decreases n
  {
    if n >= 1 {
      var j := Fall(t, n, i);
      var rest := RomanChoice(t, n - t[j].arabic, j);
      assert RomanChoice(t, n, i) == [j] + rest;
      RomanChoiceDescends(t, n - t[j].arabic, j);
      PrependDescends(j, rest, i);
    }
  }

  /** The Roman numeral of `n` is empty for n <= 0; for positive `n` it is
      not empty and the entries it is made of add up to `n`. */
  lemma RomanNumeralValue(n: int)
    ensures n <= 0 ==> RomanNumeral(n) == ""
    ensures n >= 1 ==> RomanNumeral(n) != "" && Sum(Table, Chosen(n)) == n
  {
    TableWellFormed();
    RomanChoiceSum(Table, n, Top);
    if n >= 1 {
      var ds := RomanChoice(Table, n, Top);
      SumPrepend(Table, ds[0], ds[1..]);
      assert ds == [ds[0]] + ds[1..];
    }
  }

  /** One outer pass of the conversion: the entry the inner loop stops at is
      the first one appended, and the remainder continues from that entry. */
  lemma ChoiceStep(t: seq<Entry>, n: int, start: Index)
    requires WellFormed(t) && n >= 1
    ensures var i := Fall(t, n, start);
      Remaining(t, n, start) == t[i].roman + Remaining(t, n - t[i].arabic, i)
  {
    var i := Fall(t, n, start);
    var rest := RomanChoice(t, n - t[i].arabic, i);
    assert RomanChoice(t, n, start) == [i] + rest;
    SumPrepend(t, i, rest);
  }

  /** The inner loop of the conversion: walk the table index down while the
      entry is worth more than what remains. */
  method FirstFit(t: seq<Entry>, n: int, start: Index) returns (i: Index)
    requires WellFormed(t) && n >= 1
    ensures i == Fall(t, n, start)
  {
    i := start;
    while t[i].arabic > n
      invariant Fall(t, n, i) == Fall(t, n, start)
      decreases i
    {
      i := i - 1;
    }
  }

  /** The conversion loop, over the table `t` it reads. `i` starts at the top
      of the table and is only ever decremented; each outer pass appends the
      entry the inner loop stops at. */
  method ConvertToRoman(t: seq<Entry>, number: int) returns (result: string)
    requires WellFormed(t)
    ensures result == Remaining(t, number, Top)
  {
    var n := number;
    var i: Index := Top;
    result := "";
    while n > 0
      invariant result + Remaining(t, n, i) == Remaining(t, number, Top)
      decreases n
    {
      ghost var start := i;
      i := FirstFit(t, n, i);
      ChoiceStep(t, n, start);
      result := result + t[i].roman;
      n := n - t[i].arabic;
    }
    assert Remaining(t, n, i) == [];
  }

  /** `toRoman`: the conversion over the program's table. */
  method ToRoman(number: int) returns (result: string)
    ensures result == RomanNumeral(number)
  {
    TableWellFormed();
    result := ConvertToRoman(Table, number);
  }
}
