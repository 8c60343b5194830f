/** The numeral table shared by both conversions, exactly as the program
    declares it: nine (Arabic, Roman) entries, index 3 carrying "IV" for 9
    and 50 listed before 40.

    The conversions' specification functions take the table as a parameter
    `t`; the program's conversions use them with `t == Table`. Everything
    proved for an arbitrary table relies only on `WellFormed`, which `Table`
    satisfies (`TableWellFormed`). */
module Numerals {

  datatype Entry = Entry(arabic: int, roman: string)

  /** The table, in the program's order (indices 0 .. 8). */
  const Table: seq<Entry> := [
    Entry(1, "I"),
    Entry(4, "IV"),
    Entry(5, "V"),
    Entry(9, "IV"),
    Entry(10, "X"),
    Entry(50, "L"),
    Entry(40, "XL"),
    Entry(90, "XC"),
    Entry(100, "C")
  ]

  /** The index both conversions start from. */
  const Top: nat := 8

  type Index = j: nat | j < 9

  /** An entry has a positive value, a symbol of one or two characters, and
      is worth at least as much as its symbol is long. */
  predicate Shaped(e: Entry)
  {
    1 <= e.arabic && 1 <= |e.roman| <= 2 && |e.roman| <= e.arabic
  }

  /** What the conversions rely on: nine shaped entries, the first {1, "I"}. */
  predicate WellFormed(t: seq<Entry>)
  {
    |t| == 9 && t[0] == Entry(1, "I") && forall j :: 0 <= j < |t| ==> Shaped(t[j])
  }

  /** The program's table has that shape. */
  lemma TableWellFormed()
    ensures WellFormed(Table)
  {
    forall j | 0 <= j < |Table| ensures Shaped(Table[j]) {
      assert j == 0 || j == 1 || j == 2 || j == 3 || j == 4 || j == 5 || j == 6 || j == 7 || j == 8;
    }
  }

  /** A table with exactly the program's nine entries, stated entry by entry. */
  predicate IsProgramTable(t: seq<Entry>)
  {
    && |t| == 9
    && t[0] == Entry(1, "I") && t[1] == Entry(4, "IV") && t[2] == Entry(5, "V")
    && t[3] == Entry(9, "IV") && t[4] == Entry(10, "X") && t[5] == Entry(50, "L")
    && t[6] == Entry(40, "XL") && t[7] == Entry(90, "XC") && t[8] == Entry(100, "C")
  }

  /** `IsProgramTable` describes `Table` and nothing else, and such a table
      is well formed. */
  lemma ProgramTable(t: seq<Entry>)
    ensures IsProgramTable(t) <==> t == Table
    ensures IsProgramTable(t) ==> WellFormed(t)
  {
    if IsProgramTable(t) {
      assert t == Table;
      TableWellFormed();
    }
  }

  /** Sum of the Arabic values of a sequence of chosen entries. */
  function Sum(t: seq<Entry>, ds: seq<Index>): int
    requires |t| == 9
  {
    if ds == [] then 0 else t[ds[0]].arabic + Sum(t, ds[1..])
  }

  /** Total length of the symbols of a sequence of chosen entries. */
  function SymbolLength(t: seq<Entry>, ds: seq<Index>): nat
    requires |t| == 9
  {
    if ds == [] then 0 else |t[ds[0]].roman| + SymbolLength(t, ds[1..])
  }

  /** The concatenation of the symbols of a sequence of chosen entries. */
  function Symbols(t: seq<Entry>, ds: seq<Index>): string
    requires |t| == 9
  {
    if ds == [] then [] else t[ds[0]].roman + Symbols(t, ds[1..])
  }

  /** No later choice uses a larger table index than an earlier one. */
  predicate NonIncreasing(ds: seq<Index>)
  {
    forall a, b :: 0 <= a < b < |ds| ==> ds[b] <= ds[a]
  }

  /** Every choice uses a table index at most `i`. */
  predicate AllAtMost(ds: seq<Index>, i: Index)
  {
    forall k :: 0 <= k < |ds| ==> ds[k] <= i
  }

  /** Putting a choice `j <= i` in front of a non-increasing sequence bounded
      by `j` gives a non-increasing sequence bounded by `i`. */
  lemma PrependDescends(j: Index, ds: seq<Index>, i: Index)
    requires j <= i && AllAtMost(ds, j) && NonIncreasing(ds)
    ensures AllAtMost([j] + ds, i) && NonIncreasing([j] + ds)
  {
    var e := [j] + ds;
    forall a, b | 0 <= a < b < |e| ensures e[b] <= e[a] {
      if a > 0 { assert e[a] == ds[a - 1] && e[b] == ds[b - 1]; }
      else { assert e[b] == ds[b - 1]; }
    }
    forall k | 0 <= k < |e| ensures e[k] <= i {
      if k > 0 { assert e[k] == ds[k - 1]; }
    }
  }

  /** Character `c` equals some one-character symbol of the table: the test
      the per-character filter of the Roman parser applies. */
  predicate IsSymbolChar(t: seq<Entry>, c: char)
  {
    exists j :: 0 <= j < |t| && t[j].roman == [c]
  }

  /** With the program's table the filter accepts exactly the five letters
      I, V, X, L and C. */
  lemma SymbolCharLetters(c: char)
    ensures IsSymbolChar(Table, c) <==> c in "IVXLC"
  {
    if c in "IVXLC" {
      var j := if c == 'I' then 0 else if c == 'V' then 2 else if c == 'X' then 4
               else if c == 'L' then 5 else 8;
      assert Table[j].roman == [c];
    }
  }

  /** Prepending one choice adds its value, its length and its symbol in front. */
  lemma SumPrepend(t: seq<Entry>, j: Index, ds: seq<Index>)
    requires |t| == 9
    ensures Sum(t, [j] + ds) == t[j].arabic + Sum(t, ds)
    ensures SymbolLength(t, [j] + ds) == |t[j].roman| + SymbolLength(t, ds)
    ensures Symbols(t, [j] + ds) == t[j].roman + Symbols(t, ds)
  {
    assert ([j] + ds)[1..] == ds;
  }
}
