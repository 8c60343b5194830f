/** Roman to Arabic: a per-character filter, then a greedy decomposition from
    left to right whose table index is never reset and which, once that index
    reaches 0, takes entry {1, "I"} without comparing the character. */
module RomanReader {
  import opened Numerals
  import opened Outcomes

  /** Number of characters of `s` that pass the filter. */
  function MatchCount(t: seq<Entry>, s: string): nat
  {
    if s == [] then 0
    else MatchCount(t, s[..|s| - 1]) + (if IsSymbolChar(t, s[|s| - 1]) then 1 else 0)
  }

  /** Every character equals a one-character symbol of the table. */
  predicate AllSymbolChars(t: seq<Entry>, s: string)
  {
    forall k :: 0 <= k < |s| ==> IsSymbolChar(t, s[k])
  }

  /** The filter's count never exceeds the length, and reaches it exactly
      when every character passes. */
  lemma {:induction false} MatchCountFull(t: seq<Entry>, s: string)
    ensures MatchCount(t, s) <= |s|
    ensures MatchCount(t, s) == |s| <==> AllSymbolChars(t, s)
  {
    if s != [] {
      var init := s[..|s| - 1];
      MatchCountFull(t, init);
      if AllSymbolChars(t, s) {
        assert AllSymbolChars(t, init) by {
          forall k | 0 <= k < |init| ensures IsSymbolChar(t, init[k]) {
            assert init[k] == s[k];
          }
        }
      } else if IsSymbolChar(t, s[|s| - 1]) && AllSymbolChars(t, init) {
        forall k | 0 <= k < |s| ensures IsSymbolChar(t, s[k]) {
          if k < |init| { assert s[k] == init[k]; }
        }
      }
    }
  }

  /** Entry `j`'s symbol occurs in `s` at the 0-based position `q`. */
  predicate SymbolAt(t: seq<Entry>, s: string, q: nat, j: Index)
    requires |t| == 9
  {
    q + |t[j].roman| <= |s| && s[q..q + |t[j].roman|] == t[j].roman
  }

  /** Comparing a symbol of one or two characters with the string is
      comparing it character by character. */
  lemma SymbolAtChars(t: seq<Entry>, s: string, q: nat, j: Index)
    requires WellFormed(t)
    ensures |t[j].roman| == 1 ==> (SymbolAt(t, s, q, j) <==> q < |s| && s[q] == t[j].roman[0])
    ensures |t[j].roman| == 2 ==>
      (SymbolAt(t, s, q, j) <==> q + 2 <= |s| && s[q] == t[j].roman[0] && s[q + 1] == t[j].roman[1])
  {
    var r := t[j].roman;
    assert Shaped(t[j]);
    if q + |r| <= |s| {
      var w := s[q..q + |r|];
      assert w[0] == s[q];
      assert |r| == 2 ==> w[1] == s[q + 1];
      if |r| == 1 {
        assert w == r <==> w[0] == r[0];
      } else {
        assert w == r <==> w[0] == r[0] && w[1] == r[1];
      }
    }
  }

  /** The index the inner loop stops at for position `q`: walking down from
      `i`, the first entry above 0 whose symbol occurs at `q`, and 0 when
      none does (entry 0 is then taken without a comparison). */
  function Pick(t: seq<Entry>, s: string, q: nat, i: Index): (r: Index)
    requires |t| == 9
    ensures r <= i
    ensures r > 0 ==> SymbolAt(t, s, q, r)
    decreases i
  {
    if i == 0 then 0
    else if SymbolAt(t, s, q, i) then i
    else Pick(t, s, q, i - 1)
  }

  /** The inner loop stops at the first match walking down from `i`: no entry
      it passes over has its symbol at `q`, so a result of 0 means no entry in
      1 .. i matches. */
  lemma {:induction false} PickFirstFit(t: seq<Entry>, s: string, q: nat, i: Index)
    requires |t| == 9
    ensures forall k: Index :: Pick(t, s, q, i) < k <= i ==> !SymbolAt(t, s, q, k)
    decreases i
  {
    if i > 0 && !SymbolAt(t, s, q, i) {
      PickFirstFit(t, s, q, i - 1);
    }
  }

  /** The table indices the decomposition chooses from the 1-based position
      `p` on, starting from index `i`. */
  function Decompose(t: seq<Entry>, s: string, p: nat, i: Index): seq<Index>
    requires WellFormed(t) && p >= 1
    decreases |s| + 1 - p
  {
    if p > |s| then []
    else
      var j := Pick(t, s, p - 1, i);
      [j] + Decompose(t, s, p + |t[j].roman|, j)
  }

  /** The value the decomposition adds up from position `p` and index `i`. */
  function RemainingValue(t: seq<Entry>, s: string, p: nat, i: Index): int
    requires WellFormed(t) && p >= 1
  {
    Sum(t, Decompose(t, s, p, i))
  }

  /** The value the program's decomposition gives `s`. */
  function ArabicValue(s: string): int
  {
    TableWellFormed();
    RemainingValue(Table, s, 1, Top)
  }

  /** `toArabic` as a whole: rejected unless every character passes the
      filter, otherwise the value of the decomposition. */
  function ParseRoman(s: string): Option<int>
  {
    if AllSymbolChars(Table, s) then Some(ArabicValue(s)) else None
  }

  /** One pass of the decomposition loop at a position `p <= |s|`: the entry
      chosen fits in the rest of the string, and its value is added to what
      the remainder, decomposed from that entry on, adds up to. */
  lemma DecomposeStep(t: seq<Entry>, s: string, p: nat, start: Index)
    requires WellFormed(t) && 1 <= p <= |s|
    ensures var j := Pick(t, s, p - 1, start);
      && p + |t[j].roman| <= |s| + 1
      && RemainingValue(t, s, p, start) == t[j].arabic + RemainingValue(t, s, p + |t[j].roman|, j)
  {
    var j := Pick(t, s, p - 1, start);
    var rest := Decompose(t, s, p + |t[j].roman|, j);
    assert Decompose(t, s, p, start) == [j] + rest;
    SumPrepend(t, j, rest);
  }

  /** The decomposition consumes the rest of the string exactly: the symbol
      lengths of the chosen entries add up to what is left from `p`, so `p`
      ends at exactly `|s| + 1`; and since no entry is worth less than its
      symbol is long, the value is at least that length. */
  lemma {:induction false} DecomposeCovers(t: seq<Entry>, s: string, p: nat, i: Index)
    requires WellFormed(t) && 1 <= p <= |s| + 1
    ensures SymbolLength(t, Decompose(t, s, p, i)) == |s| + 1 - p
    ensures RemainingValue(t, s, p, i) >= |s| + 1 - p
    ensures Decompose(t, s, p, i) == [] <==> p == |s| + 1
    decreases |s| + 1 - p
  {
    if p <= |s| {
      var j := Pick(t, s, p - 1, i);
      assert Shaped(t[j]);
      var rest := Decompose(t, s, p + |t[j].roman|, j);
      assert Decompose(t, s, p, i) == [j] + rest;
      DecomposeCovers(t, s, p + |t[j].roman|, j);
      SumPrepend(t, j, rest);
    }
  }

  /** The table index only ever decreases during the decomposition. */
  lemma {:induction false} DecomposeDescends(t: seq<Entry>, s: string, p: nat, i: Index)
    requires WellFormed(t) && p >= 1
    ensures AllAtMost(Decompose(t, s, p, i), i)
    ensures NonIncreasing(Decompose(t, s, p, i))
    decreases |s| + 1 - p
  {
    var ds := Decompose(t, s, p, i);
    if p <= |s| {
      var j := Pick(t, s, p - 1, i);
      var rest := Decompose(t, s, p + |t[j].roman|, j);
      assert ds == [j] + rest;
      DecomposeDescends(t, s, p + |t[j].roman|, j);
      PrependDescends(j, rest, i);
    } else {
      assert ds == [];
    }
  }

  /** Read from the 0-based offset `q` on, every entry of `ds` other than
      entry 0 has its symbol in `s` where it is taken, each entry starting
      where the previous one's symbol ends. */
  predicate OccursInOrder(t: seq<Entry>, s: string, q: nat, ds: seq<Index>)
    requires |t| == 9
    decreases |ds|
  {
    ds == [] ||
    ((ds[0] > 0 ==> SymbolAt(t, s, q, ds[0])) && OccursInOrder(t, s, q + |t[ds[0]].roman|, ds[1..]))
  }

  /** Every chosen entry other than entry 0 occurs in the string where the
      decomposition takes it. */
  lemma {:induction false} DecomposeMatches(t: seq<Entry>, s: string, p: nat, i: Index)
    requires WellFormed(t) && p >= 1
    ensures OccursInOrder(t, s, p - 1, Decompose(t, s, p, i))
    decreases |s| + 1 - p
  {
    if p <= |s| {
      var j := Pick(t, s, p - 1, i);
      var rest := Decompose(t, s, p + |t[j].roman|, j);
      assert Decompose(t, s, p, i) == [j] + rest;
      DecomposeMatches(t, s, p + |t[j].roman|, j);
      assert ([j] + rest)[1..] == rest;
    }
  }

  /** Once the table index has reached 0 it stays there: every remaining
      character is taken as entry {1, "I"}, whatever it is, so the rest of the
      string is worth its length. */
  lemma {:induction false} DecomposeFromZero(t: seq<Entry>, s: string, p: nat)
    requires WellFormed(t) && 1 <= p <= |s| + 1
    ensures |Decompose(t, s, p, 0)| == |s| + 1 - p
    ensures forall k :: 0 <= k < |Decompose(t, s, p, 0)| ==> Decompose(t, s, p, 0)[k] == 0
    ensures RemainingValue(t, s, p, 0) == |s| + 1 - p
    decreases |s| + 1 - p
  {
    if p <= |s| {
      var rest := Decompose(t, s, p + 1, 0);
      assert Decompose(t, s, p, 0) == [0] + rest;
      DecomposeFromZero(t, s, p + 1);
      SumPrepend(t, 0, rest);
    }
  }

  /** `toArabic` accepts a string exactly when each of its characters is one
      of I, V, X, L and C; the empty string included. */
  lemma ParseRomanAccepts(s: string)
    ensures ParseRoman(s).Some? <==> forall k :: 0 <= k < |s| ==> s[k] in "IVXLC"
  {
    forall k | 0 <= k < |s| ensures IsSymbolChar(Table, s[k]) <==> s[k] in "IVXLC" {
      SymbolCharLetters(s[k]);
    }
  }

  /** An accepted string is worth at least its length: the empty string is
      worth 0 and any other accepted string at least 1. */
  lemma ParseRomanValue(s: string)
    ensures s == "" ==> ParseRoman(s) == Some(0)
    ensures ParseRoman(s).Some? ==> ParseRoman(s).value >= |s|
    ensures s != "" && ParseRoman(s).Some? ==> ParseRoman(s).value >= 1
  {
    TableWellFormed();
    DecomposeCovers(Table, s, 1, Top);
  }

  /** The inner loop of the filter: scan the table for a symbol equal to
      character `k` of the string. */
  method MatchesSymbol(t: seq<Entry>, romanNumber: string, k: nat) returns (found: bool)
    requires k < |romanNumber|
    ensures found == IsSymbolChar(t, romanNumber[k])
  {
    found := false;
    var j := 0;
    while j < |t|
      invariant 0 <= j <= |t|
      invariant forall m :: 0 <= m < j ==> t[m].roman != romanNumber[k..k + 1]
    {
      if t[j].roman == romanNumber[k..k + 1] {
        found := true;
        break;
      }
      j := j + 1;
    }
    assert romanNumber[k..k + 1] == [romanNumber[k]];
  }

  /** The filter: count the characters that equal a one-character symbol. */
  method CountMatches(t: seq<Entry>, romanNumber: string) returns (matchCounter: nat)
    ensures matchCounter == MatchCount(t, romanNumber)
  {
    matchCounter := 0;
    var k := 0;
    while k < |romanNumber|
      invariant 0 <= k <= |romanNumber|
      invariant matchCounter == MatchCount(t, romanNumber[..k])
    {
      assert romanNumber[..k + 1][..k] == romanNumber[..k];
      var found := MatchesSymbol(t, romanNumber, k);
      if found {
        matchCounter := matchCounter + 1;
      }
      k := k + 1;
    }
    assert romanNumber[..k] == romanNumber;
  }

  /** The inner loop of the decomposition: walk the table index down to the
      first entry above 0 whose symbol occurs at the 1-based position `p`,
      or down to 0. */
  method FindEntry(t: seq<Entry>, romanNumber: string, p: nat, start: Index) returns (i: Index)
    requires |t| == 9 && 1 <= p
    ensures i == Pick(t, romanNumber, p - 1, start)
  {
    i := start;
    while i > 0
      invariant Pick(t, romanNumber, p - 1, i) == Pick(t, romanNumber, p - 1, start)
      decreases i
    {
      if p - 1 + |t[i].roman| <= |romanNumber| {
        if romanNumber[p - 1..p - 1 + |t[i].roman|] == t[i].roman {
          break;
        }
      }
      i := i - 1;
    }
  }

  /** The decomposition: `p` (1-based) walks through the string; each pass
      adds the value of the entry the inner loop stops at and advances `p`
      by that entry's symbol length. The table index is not reset between
      passes. */
  method SumDecomposition(t: seq<Entry>, romanNumber: string) returns (result: int)
    requires WellFormed(t)
    ensures result == RemainingValue(t, romanNumber, 1, Top)
  {
    result := 0;
    var i: Index := Top;
    var p := 1;
    while p <= |romanNumber|
      invariant 1 <= p <= |romanNumber| + 1
      invariant result + RemainingValue(t, romanNumber, p, i) == RemainingValue(t, romanNumber, 1, Top)
      decreases |romanNumber| + 1 - p
    {
      ghost var start := i;
      i := FindEntry(t, romanNumber, p, i);
      DecomposeStep(t, romanNumber, p, start);
      result := result + t[i].arabic;
      p := p + |t[i].roman|;
    }
    assert Decompose(t, romanNumber, p, i) == [];
  }

  /** `toArabic` over the table `t`: reject unless every character passed
      the filter, otherwise return the decomposition's sum. */
  method ConvertToArabic(t: seq<Entry>, romanNumber: string) returns (result: int, ok: bool)
    requires WellFormed(t)
    ensures ok == AllSymbolChars(t, romanNumber)
    ensures result == if ok then RemainingValue(t, romanNumber, 1, Top) else 0
  {
    var matchCounter := CountMatches(t, romanNumber);
    MatchCountFull(t, romanNumber);
    if matchCounter != |romanNumber| {
      return 0, false;
    }
    result := SumDecomposition(t, romanNumber);
    ok := true;
  }

  /** `toArabic`: the conversion over the program's table. */
  method ToArabic(romanNumber: string) returns (result: int, ok: bool)
    ensures ok <==> ParseRoman(romanNumber).Some?
    ensures ok ==> result == ParseRoman(romanNumber).value
    ensures !ok ==> result == 0
  {
    TableWellFormed();
    result, ok := ConvertToArabic(Table, romanNumber);
  }
}
