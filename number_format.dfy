/** `formatNumber(num)`: `num.toString()` with `,` inserted wherever the
    expression `\B(?=(\d{3})+(?!\d))` matches, that is before every digit that
    is followed by a multiple of three digits and sits inside a word. */
module NumberFormat {
  import opened Seqs

  predicate IsDigit(c: char) {
    '0' <= c <= '9'
  }

  /** The characters `\w` matches. */
  predicate IsWordChar(c: char) {
    IsDigit(c) || 'a' <= c <= 'z' || 'A' <= c <= 'Z' || c == '_'
  }

  predicate AllDigits(s: string) {
    forall i :: 0 <= i < |s| ==> IsDigit(s[i])
  }

  /** The number of digits in `s` from position `p` on, up to the first
      non-digit. */
  function DigitRun(s: string, p: nat): (n: nat)
    requires p <= |s|
    ensures p + n <= |s|
    decreases |s| - p
  {
    if p < |s| && IsDigit(s[p]) then 1 + DigitRun(s, p + 1) else 0
  }

  /** The expression matches at position `p`: no word boundary there (the
      character before and the one after are both word characters), and a
      positive multiple of three digits follows, then no further digit. */
  predicate CommaAt(s: string, p: nat) {
    0 < p < |s| && IsWordChar(s[p - 1]) && DigitRun(s, p) > 0 && DigitRun(s, p) % 3 == 0
  }

  /** The global replace, from position `p` on: every match position gets a
      `,` in front of its character. */
  function Grouped(s: string, p: nat): string
    requires p <= |s|
    decreases |s| - p
  {
    if p == |s| then []
    else (if CommaAt(s, p) then [','] else []) + [s[p]] + Grouped(s, p + 1)
  }

  function Digit(d: nat): (c: char)
    requires d < 10
    ensures IsDigit(c)
  {
    ('0' as int + d) as char
  }

  /** The decimal digits of `n`, without leading zeros: `n.toString()`. */
  function DecimalDigits(n: nat): (s: string)
    ensures |s| > 0 && AllDigits(s)
    ensures |s| > 1 ==> s[0] != '0'
  {
    if n < 10 then [Digit(n)] else DecimalDigits(n / 10) + [Digit(n % 10)]
  }

  /** The number a digit string denotes. */
  function Value(s: string): nat
    requires AllDigits(s)
  {
    if |s| == 0 then 0 else Value(s[..|s| - 1]) * 10 + (s[|s| - 1] as int - '0' as int)
  }

  /** `formatNumber` on an integer. The text is never empty, and it opens with
      `-` exactly for a negative number and with a digit otherwise. */
  function FormatNumber(n: int): (r: string)
    ensures |r| > 0
    ensures n < 0 <==> r[0] == '-'
    ensures n >= 0 ==> IsDigit(r[0])
  {
    var s := if n < 0 then "-" + DecimalDigits(-n) else DecimalDigits(n);
    Grouped(s, 0)
  }

  /** The digit string denotes the number it was made from. */
  lemma {:induction false} DecimalDigitsValue(n: nat)
    ensures Value(DecimalDigits(n)) == n
  {
    var s := DecimalDigits(n);
    if n >= 10 {
      DecimalDigitsValue(n / 10);
      assert s[..|s| - 1] == DecimalDigits(n / 10);
    }
  }

  /** The replace only inserts: deleting the commas gives back the text, for
      any text that had none. */
  lemma {:induction false} CommasOnlyAdded(s: string, p: nat)
    requires p <= |s| && ',' !in s
    ensures Remove(Grouped(s, p), ',') == s[p..]
    decreases |s| - p
  {
    if p < |s| {
      CommasOnlyAdded(s, p + 1);
      var c := if CommaAt(s, p) then [','] else [];
      RemoveConcat(c + [s[p]], Grouped(s, p + 1), ',');
      RemoveConcat(c, [s[p]], ',');
      assert Remove(c, ',') == [];
      assert s[p..] == [s[p]] + s[p + 1..];
    }
  }

  /** In a digit string every position is followed by the rest of the string. */
  lemma {:induction false} DigitRunAll(s: string, p: nat)
    requires p <= |s| && AllDigits(s)
    ensures DigitRun(s, p) == |s| - p
    decreases |s| - p
  {
    if p < |s| {
      DigitRunAll(s, p + 1);
    }
  }

  /** The digits after the first group, three at a time. */
  function Triples(t: string): (ts: seq<string>)
    requires |t| % 3 == 0
    ensures forall i :: 0 <= i < |ts| ==> |ts[i]| == 3
    ensures |ts| == 0 <==> |t| == 0
    decreases |t|
  {
    if |t| == 0 then [] else [t[..3]] + Triples(t[3..])
  }

  /** How the digits of a number are grouped: a first group of one to three
      digits, then groups of three. */
  function Groups(s: string): seq<string>
    requires |s| > 0
  {
    var r := (|s| - 1) % 3 + 1;
    [s[..r]] + Triples(s[r..])
  }

  /** The triples glue back to the text they were cut from. */
  lemma {:induction false} TriplesFlatten(t: string)
    requires |t| % 3 == 0
    ensures Flatten(Triples(t)) == t
    decreases |t|
  {
    if |t| > 0 {
      TriplesFlatten(t[3..]);
      assert t[..3] + t[3..] == t;
    }
  }

  lemma {:induction false} TriplesDigits(t: string)
    requires |t| % 3 == 0 && AllDigits(t)
    ensures forall i :: 0 <= i < |Triples(t)| ==> AllDigits(Triples(t)[i])
    decreases |t|
  {
    if |t| > 0 {
      TriplesDigits(t[3..]);
    }
  }

  /** In a digit string the expression matches exactly at the positions
      inside the string followed by a multiple of three digits. */
  lemma CommaAtDigits(s: string, p: nat)
    requires AllDigits(s) && p <= |s|
    ensures CommaAt(s, p) <==> 0 < p < |s| && (|s| - p) % 3 == 0
  {
    DigitRunAll(s, p);
  }

  lemma ModStep(m: nat)
    requires m > 0 && m % 3 == 0
    ensures m >= 3 && (m - 1) % 3 != 0 && (m - 2) % 3 != 0 && (m - 3) % 3 == 0
  {
  }

  /** One unfolding of the replace. */
  lemma GroupedStep(s: string, p: nat)
    requires p < |s|
    ensures Grouped(s, p) == (if CommaAt(s, p) then [','] else []) + [s[p]] + Grouped(s, p + 1)
  {
  }

  /** Where the expression does not match, the replace copies the character. */
  lemma GroupedCopy(s: string, p: nat)
    requires p < |s| && !CommaAt(s, p)
    ensures Grouped(s, p) == [s[p]] + Grouped(s, p + 1)
  {
    assert Grouped(s, p) == [] + [s[p]] + Grouped(s, p + 1);
  }

  /** At a group boundary the replace writes `,`, the three digits of the
      group, and goes on at the next boundary. */
  lemma GroupedTriple(s: string, p: nat)
    requires AllDigits(s) && 0 < p < |s| && (|s| - p) % 3 == 0
    ensures p + 3 <= |s| && (|s| - (p + 3)) % 3 == 0
    ensures Grouped(s, p) == [','] + s[p..p + 3] + Grouped(s, p + 3)
  {
    ModStep(|s| - p);
    CommaAtDigits(s, p);
    CommaAtDigits(s, p + 1);
    CommaAtDigits(s, p + 2);
    var g3 := Grouped(s, p + 3);
    GroupedStep(s, p + 2);
    var g2 := [s[p + 2]] + g3;
    assert Grouped(s, p + 2) == g2;
    GroupedStep(s, p + 1);
    var g1 := [s[p + 1]] + g2;
    assert Grouped(s, p + 1) == g1;
    GroupedStep(s, p);
    assert Grouped(s, p) == [','] + [s[p]] + g1;
    assert [','] + [s[p]] + g1 == [','] + s[p..p + 3] + g3;
  }

  /** Each part with a separator in front, glued together. */
  function Prefixed<T>(parts: seq<seq<T>>, sep: T): seq<T> {
    if |parts| == 0 then [] else [sep] + parts[0] + Prefixed(parts[1..], sep)
  }

  /** From a group boundary on, the replace writes `,` and the next three
      digits, group after group. */
  lemma {:induction false} GroupedTail(s: string, p: nat)
    requires AllDigits(s) && 0 < p <= |s| && (|s| - p) % 3 == 0
    ensures Grouped(s, p) == Prefixed(Triples(s[p..]), ',')
    decreases |s| - p
  {
    if p < |s| {
      GroupedTriple(s, p);
      GroupedTail(s, p + 3);
      TriplesCons(s, p);
      var parts := Triples(s[p..]);
      assert parts[0] == s[p..p + 3];
      assert parts[1..] == Triples(s[p + 3..]);
    }
  }

  lemma TriplesCons(s: string, p: nat)
    requires p + 3 <= |s| && (|s| - p) % 3 == 0
    ensures (|s| - (p + 3)) % 3 == 0
    ensures Triples(s[p..]) == [s[p..p + 3]] + Triples(s[p + 3..])
  {
    assert s[p..][..3] == s[p..p + 3];
    assert s[p..][3..] == s[p + 3..];
  }

  /** A join is its first part followed by the others, each after a separator. */
  lemma {:induction false} JoinPrefixed<T>(parts: seq<seq<T>>, sep: T)
    requires |parts| > 0
    ensures Join(parts, sep) == parts[0] + Prefixed(parts[1..], sep)
  {
    if |parts| > 1 {
      JoinPrefixed(parts[1..], sep);
      assert parts[1..][1..] == parts[2..];
    }
  }

  /** Over a stretch with no match the replace copies the text unchanged. */
  lemma {:induction false} GroupedCopies(s: string, p: nat, r: nat)
    requires p <= r <= |s|
    requires forall q :: p <= q < r ==> !CommaAt(s, q)
    ensures Grouped(s, p) == s[p..r] + Grouped(s, r)
    decreases r - p
  {
    if p < r {
      GroupedCopy(s, p);
      GroupedCopies(s, p + 1, r);
      var g := Grouped(s, r);
      assert Grouped(s, p) == [s[p]] + (s[p + 1..r] + g);
      assert s[p..r] == [s[p]] + s[p + 1..r];
    }
  }

  /** Inside the first group the replace copies the digits unchanged. */
  lemma GroupedHead(s: string, r: nat)
    requires AllDigits(s) && 0 < r <= 3 && r <= |s| && (|s| - r) % 3 == 0
    ensures Grouped(s, 0) == s[..r] + Grouped(s, r)
  {
    forall q | 0 <= q < r ensures !CommaAt(s, q) {
      NoCommaInHead(s, q, r);
    }
    GroupedCopies(s, 0, r);
    assert s[0..r] == s[..r];
  }

  /** No position of the first group is a match. */
  lemma NoCommaInHead(s: string, p: nat, r: nat)
    requires AllDigits(s) && p < r <= |s| && r <= 3 && (|s| - r) % 3 == 0
    ensures !CommaAt(s, p)
  {
    CommaAtDigits(s, p);
    if p > 0 {
      ModOffset(|s| - r, r - p);
    }
  }

  lemma ModOffset(m: nat, d: nat)
    requires m % 3 == 0 && 0 < d < 3
    ensures (m + d) % 3 != 0
  {
  }

  /** A non-negative integer is printed as its digit groups joined by `,`. */
  lemma FormatGroups(n: nat)
    ensures FormatNumber(n) == Join(Groups(DecimalDigits(n)), ',')
  {
    GroupedDigits(DecimalDigits(n));
  }

  /** The replace on a digit string joins its groups with `,`. */
  lemma GroupedDigits(s: string)
    requires |s| > 0 && AllDigits(s)
    ensures Grouped(s, 0) == Join(Groups(s), ',')
  {
    var r := (|s| - 1) % 3 + 1;
    FirstGroup(|s|);
    GroupedSplit(s, r);
  }

  /** The replace is the first `r` digits, then `,` before every later triple. */
  lemma GroupedSplit(s: string, r: nat)
    requires AllDigits(s) && 0 < r <= 3 && r <= |s| && (|s| - r) % 3 == 0
    ensures Grouped(s, 0) == Join([s[..r]] + Triples(s[r..]), ',')
  {
    var parts := [s[..r]] + Triples(s[r..]);
    GroupedHead(s, r);
    GroupedTail(s, r);
    JoinPrefixed(parts, ',');
    assert parts[1..] == Triples(s[r..]);
  }

  lemma FirstGroup(len: nat)
    requires len > 0
    ensures var r := (len - 1) % 3 + 1; 0 < r <= 3 && r <= len && (len - r) % 3 == 0
  {
  }

  /** The groups: every one is digits, the first has one to three of them and
      every later one exactly three, and together they are the number's digits. */
  lemma GroupShape(s: string)
    requires |s| > 0 && AllDigits(s)
    ensures var g := Groups(s);
      && 1 <= |g[0]| <= 3
      && (forall i :: 1 <= i < |g| ==> |g[i]| == 3)
      && (forall i :: 0 <= i < |g| ==> AllDigits(g[i]))
      && Flatten(g) == s
  {
    var r := (|s| - 1) % 3 + 1;
    TriplesFlatten(s[r..]);
    TriplesDigits(s[r..]);
    assert s[..r] + s[r..] == s;
  }

  /** Splitting the printed number at its commas gives the digit groups. */
  lemma SplitFormatNumber(n: nat)
    ensures Split(FormatNumber(n), ',') == Groups(DecimalDigits(n))
  {
    var g := Groups(DecimalDigits(n));
    FormatGroups(n);
    GroupShape(DecimalDigits(n));
    assert Free(g, ',') by {
      forall i | 0 <= i < |g| ensures ',' !in g[i] {
        assert AllDigits(g[i]);
      }
    }
    SplitJoin(g, ',');
  }

  /** Deleting the commas from the printed number gives its digits. */
  lemma RemoveCommas(n: nat)
    ensures Remove(FormatNumber(n), ',') == DecimalDigits(n)
  {
    var s := DecimalDigits(n);
    assert forall i :: 0 <= i < |s| ==> s[i] != ',';
    CommasOnlyAdded(s, 0);
  }

  /** A digit run is the same after a leading character is put in front. */
  lemma {:induction false} DigitRunShift(c: char, s: string, p: nat)
    requires p <= |s|
    ensures DigitRun([c] + s, p + 1) == DigitRun(s, p)
    decreases |s| - p
  {
    if p < |s| {
      DigitRunShift(c, s, p + 1);
    }
  }

  /** With a leading character in front, the replace sees the same matches
      one position later, as long as the boundary rule is unchanged there. */
  lemma {:induction false} GroupedShift(c: char, s: string, p: nat)
    requires p <= |s|
    requires p == 0 ==> !IsWordChar(c)
    ensures Grouped([c] + s, p + 1) == Grouped(s, p)
    decreases |s| - p
  {
    if p < |s| {
      var t := [c] + s;
      CommaAtShift(c, s, p);
      GroupedShift(c, s, p + 1);
      GroupedStep(t, p + 1);
      GroupedStep(s, p);
      var pre := if CommaAt(s, p) then [','] else [];
      assert Grouped(t, p + 1) == pre + [s[p]] + Grouped(t, p + 2);
      assert Grouped(s, p) == pre + [s[p]] + Grouped(s, p + 1);
    }
  }

  lemma CommaAtShift(c: char, s: string, p: nat)
    requires p < |s|
    requires p == 0 ==> !IsWordChar(c)
    ensures CommaAt([c] + s, p + 1) == CommaAt(s, p)
    ensures ([c] + s)[p + 1] == s[p]
  {
    DigitRunShift(c, s, p);
    if p > 0 {
      assert ([c] + s)[p] == s[p - 1];
    }
  }

  /** A negative number is its absolute value printed after a minus sign: the
      sign is a word boundary, so no comma follows it. */
  lemma NegativeFormat(n: int)
    requires n < 0
    ensures FormatNumber(n) == "-" + FormatNumber(-n)
  {
    GroupedShift('-', DecimalDigits(-n), 0);
  }
}
