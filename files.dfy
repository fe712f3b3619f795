/**
 * The race files: their sequence key, the file number in their name, and
 * the numeric order `main` processes them in.
 */
module Files {
  import opened Base
  import opened Strings
  import opened Frames

  /** A path found by the glob, with what `pd.read_csv` gives for it: a table, or None when reading raises. */
  datatype CsvFile = CsvFile(path: string, table: Option<Table>)

  /** The name of the `n`-th results file as the scraper writes it and the glob reports it. */
  function RaceFileName(n: nat): (name: string)
    ensures name == "./races" + NatToString(n) + ".csv"
  {
    "./races" + NatToString(n) + ".csv"
  }

  /**
   * `key_func(name)`: every non-digit character removed and the rest read as
   * an integer; None where `int("")` raises, for a name with no digit.
   */
  function KeyFunc(name: string): (k: Option<nat>)
    ensures k.Some? <==> exists i :: 0 <= i < |name| && IsDigit(name[i])
  {
    var digits := DigitsOf(name);
    DigitsOfEmpty(name);
    if digits == [] then None else Some(DigitsValue(digits))
  }

  /** The length of the run of digits that starts at position `p`. */
  function DigitRun(s: string, p: nat): (d: nat)
    requires p <= |s|
    ensures p + d <= |s|
    ensures forall k :: p <= k < p + d ==> IsDigit(s[k])
    ensures p + d == |s| || !IsDigit(s[p + d])
    decreases |s| - p
  {
    if p < |s| && IsDigit(s[p]) then 1 + DigitRun(s, p + 1) else 0
  }

  /** "races" starts at position `p`. */
  predicate RacesAt(s: string, p: nat) {
    p + 5 <= |s| && s[p..p + 5] == "races"
  }

  /** ".csv" starts at position `p`. */
  predicate CsvAt(s: string, p: nat) {
    p + 4 <= |s| && s[p..p + 4] == ".csv"
  }

  /**
   * A match of `races(\d+)\.csv` starting at position `p`, and the number its
   * group reads as. The digit run is taken whole: a shorter one is followed
   * by a digit, never by the ".".
   */
  function MatchAt(s: string, p: nat): (r: Option<nat>)
    requires p <= |s|
    ensures r.Some? ==> RacesAt(s, p)
  {
    if RacesAt(s, p) then
      var q := p + 5;
      var d := DigitRun(s, q);
      if d >= 1 && CsvAt(s, q + d) then
        assert AllDigits(s[q..q + d]);
        Some(DigitsValue(s[q..q + d]))
      else None
    else None
  }

  /** The leftmost match at position `p` or later. */
  function FileNumFrom(s: string, p: nat): (r: Option<nat>)
    requires p <= |s|
    ensures r.None? <==> forall q :: p <= q <= |s| ==> MatchAt(s, q).None?
    ensures r.Some? ==> exists q :: p <= q <= |s| && MatchAt(s, q) == r
                                    && forall q' :: p <= q' < q ==> MatchAt(s, q').None?
    decreases |s| - p
  {
    var here := MatchAt(s, p);
    if here.Some? then here
    else if p == |s| then None
    else
      var r := FileNumFrom(s, p + 1);
      FirstMatchStep(s, p, r);
      r
  }

  /** No match at `p` makes the leftmost match from `p + 1` the leftmost one from `p`. */
  lemma FirstMatchStep(s: string, p: nat, r: Option<nat>)
    requires p < |s| && MatchAt(s, p).None?
    requires r.None? <==> forall q :: p + 1 <= q <= |s| ==> MatchAt(s, q).None?
    requires r.Some? ==> exists q :: p + 1 <= q <= |s| && MatchAt(s, q) == r
                                    && forall q' :: p + 1 <= q' < q ==> MatchAt(s, q').None?
    ensures r.None? <==> forall q :: p <= q <= |s| ==> MatchAt(s, q).None?
    ensures r.Some? ==> exists q :: p <= q <= |s| && MatchAt(s, q) == r
                                    && forall q' :: p <= q' < q ==> MatchAt(s, q').None?
  {
    if r.Some? {
      var q :| p + 1 <= q <= |s| && MatchAt(s, q) == r && forall q' :: p + 1 <= q' < q ==> MatchAt(s, q').None?;
      assert forall q' :: p <= q' < q ==> MatchAt(s, q').None?;
    }
  }

  /**
   * `int(re.findall(r'races(\d+)\.csv', path)[0])`: the number of the first
   * match, or None where there is none and indexing the empty list raises.
   */
  function FileNum(path: string): (r: Option<nat>)
    ensures r.None? <==> forall q :: 0 <= q <= |path| ==> MatchAt(path, q).None?
    ensures r.Some? ==> exists q :: 0 <= q <= |path| && MatchAt(path, q) == r
                                    && forall q' :: 0 <= q' < q ==> MatchAt(path, q').None?
  {
    FileNumFrom(path, 0)
  }

  predicate Keyed(f: CsvFile) {
    KeyFunc(f.path).Some?
  }

  function Key(f: CsvFile): nat
    requires Keyed(f)
  {
    KeyFunc(f.path).value
  }

  /** Every file has a sequence key: `sorted(..., key=key_func)` does not raise. */
  predicate AllKeyed(fs: seq<CsvFile>) {
    forall i :: 0 <= i < |fs| ==> Keyed(fs[i])
  }

  predicate SortedByKey(fs: seq<CsvFile>)
    requires AllKeyed(fs)
  {
    forall i, j :: 0 <= i < j < |fs| ==> Key(fs[i]) <= Key(fs[j])
  }

  /** `f` put into a list before the first file whose key is not smaller. */
  function Insert(f: CsvFile, fs: seq<CsvFile>): (r: seq<CsvFile>)
    requires Keyed(f) && AllKeyed(fs)
    ensures AllKeyed(r)
    ensures multiset(r) == multiset(fs) + multiset{f}
  {
    if fs == [] || Key(f) <= Key(fs[0]) then [f] + fs
    else
      assert fs == [fs[0]] + fs[1..];
      [fs[0]] + Insert(f, fs[1..])
  }

  /**
   * `sorted(files, key=key_func)`: the files in ascending key order, with
   * files of equal key in their original order.
   */
  function SortFiles(fs: seq<CsvFile>): (r: seq<CsvFile>)
    requires AllKeyed(fs)
    ensures AllKeyed(r) && SortedByKey(r)
    ensures multiset(r) == multiset(fs)
  {
    if fs == [] then []
    else
      assert fs == [fs[0]] + fs[1..];
      var rest := SortFiles(fs[1..]);
      InsertSorted(fs[0], rest);
      Insert(fs[0], rest)
  }

  /** A lower bound on every key survives an insertion that respects it. */
  lemma {:induction false} InsertBound(f: CsvFile, fs: seq<CsvFile>, lo: nat)
    requires Keyed(f) && AllKeyed(fs) && lo <= Key(f)
    requires forall i :: 0 <= i < |fs| ==> lo <= Key(fs[i])
    ensures forall i :: 0 <= i < |Insert(f, fs)| ==> lo <= Key(Insert(f, fs)[i])
  {
    if fs != [] && Key(f) > Key(fs[0]) {
      InsertBound(f, fs[1..], lo);
      assert Insert(f, fs) == [fs[0]] + Insert(f, fs[1..]);
    }
  }

  /** Inserting into a sorted list keeps it sorted. */
  lemma {:induction false} InsertSorted(f: CsvFile, fs: seq<CsvFile>)
    requires Keyed(f) && AllKeyed(fs) && SortedByKey(fs)
    ensures SortedByKey(Insert(f, fs))
  {
    if fs != [] && Key(f) > Key(fs[0]) {
      var rest := Insert(f, fs[1..]);
      InsertSorted(f, fs[1..]);
      InsertBound(f, fs[1..], Key(fs[0]));
      assert Insert(f, fs) == [fs[0]] + rest;
    }
  }

  // ---------------------------------------------------------------------------
  // Lemmas

  /** A run of `d` digits ending at a non-digit or at the end is the run `DigitRun` finds. */
  lemma {:induction false} DigitRunAt(s: string, p: nat, d: nat)
    requires p + d <= |s|
    requires forall k :: p <= k < p + d ==> IsDigit(s[k])
    requires p + d == |s| || !IsDigit(s[p + d])
    ensures DigitRun(s, p) == d
    decreases d
  {
    if d > 0 {
      DigitRunAt(s, p + 1, d - 1);
    }
  }

  /** A name with no digit has neither a file number nor a sequence key. */
  lemma NoDigitsNoNumber(s: string)
    requires forall k :: 0 <= k < |s| ==> !IsDigit(s[k])
    ensures FileNum(s) == None && KeyFunc(s) == None
  {
    DigitsOfNoDigits(s);
    NoDigitsNoMatchFrom(s, 0);
  }

  lemma {:induction false} NoDigitsNoMatchFrom(s: string, p: nat)
    requires p <= |s|
    requires forall k :: 0 <= k < |s| ==> !IsDigit(s[k])
    ensures FileNumFrom(s, p) == None
    decreases |s| - p
  {
    if p + 5 <= |s| {
      DigitRunAt(s, p + 5, 0);
    }
    assert MatchAt(s, p) == None;
    if p < |s| {
      NoDigitsNoMatchFrom(s, p + 1);
    }
  }

  lemma SliceDigits(s: string, q: nat, digits: string)
    requires q + |digits| <= |s| && s[q..q + |digits|] == digits && AllDigits(digits)
    ensures forall k :: q <= k < q + |digits| ==> IsDigit(s[k])
  {
    forall k | q <= k < q + |digits|
      ensures IsDigit(s[k])
    {
      assert s[k] == digits[k - q];
    }
  }

  /** "races", a run of digits and ".csv" at position `p` are a match, which reads the digits. */
  lemma MatchHere(s: string, p: nat, digits: string)
    requires |digits| >= 1 && AllDigits(digits) && p + 9 + |digits| <= |s|
    requires RacesAt(s, p) && s[p + 5..p + 5 + |digits|] == digits
    requires DigitRun(s, p + 5) == |digits| && CsvAt(s, p + 5 + |digits|)
    ensures MatchAt(s, p) == Some(DigitsValue(digits))
  {
  }

  /** The pieces of a results file name: where "races", the digits and ".csv" lie. */
  lemma RaceFileNamePieces(s: string, digits: string)
    requires s == "./races" + digits + ".csv"
    ensures |s| == |digits| + 11
    ensures !RacesAt(s, 0) && !RacesAt(s, 1) && RacesAt(s, 2)
    ensures s[7..7 + |digits|] == digits && CsvAt(s, 7 + |digits|)
    ensures !IsDigit(s[7 + |digits|])
  {
    assert s[..5][0] == '.' && s[1..6][0] == '/';
    assert s[7 + |digits|] == '.';
  }

  /** The number in the name of the `n`-th results file is `n`. */
  lemma FileNumRoundTrip(n: nat)
    ensures FileNum(RaceFileName(n)) == Some(n)
  {
    var s, digits := RaceFileName(n), NatToString(n);
    RaceFileNamePieces(s, digits);
    assert MatchAt(s, 0) == None;
    assert MatchAt(s, 1) == None;
    SliceDigits(s, 7, digits);
    DigitRunAt(s, 7, |digits|);
    MatchHere(s, 2, digits);
    NatToStringRoundTrip(n);
    assert FileNumFrom(s, 2) == Some(n);
    assert FileNumFrom(s, 1) == Some(n);
  }

  /** A name made of decimal digits only has the number they spell as its key. */
  lemma KeyFuncOfDigits(digits: string)
    requires |digits| >= 1 && AllDigits(digits)
    ensures KeyFunc(digits) == Some(DigitsValue(digits))
  {
    DigitsOfDigits(digits);
  }

  /** A character that is not a digit, wherever it stands in the name, does not change the key. */
  lemma KeyFuncIgnoresNonDigit(a: string, c: char, b: string)
    requires !IsDigit(c)
    ensures KeyFunc(a + [c] + b) == KeyFunc(a + b)
  {
    DigitsOfAppend(a + [c], b);
    DigitsOfAppend(a, [c]);
    DigitsOfAppend(a, b);
    assert DigitsOf([c]) == [] by {
      assert [c][1..] == [];
    }
    assert DigitsOf(a) + [] == DigitsOf(a);
  }

  /**
   * Digits with text around them that holds none: the key is the number
   * the digits spell, as though the text were not there.
   */
  lemma KeyFuncPieces(prefix: string, digits: string, suffix: string)
    requires |digits| >= 1 && AllDigits(digits)
    requires forall k :: 0 <= k < |prefix| ==> !IsDigit(prefix[k])
    requires forall k :: 0 <= k < |suffix| ==> !IsDigit(suffix[k])
    ensures KeyFunc(prefix + digits + suffix) == Some(DigitsValue(digits))
  {
    DigitsOfPieces(prefix, digits, suffix);
  }

  /** Removing the non-digits from digits with digitless text around them leaves the digits. */
  lemma DigitsOfPieces(prefix: string, digits: string, suffix: string)
    requires AllDigits(digits)
    requires forall k :: 0 <= k < |prefix| ==> !IsDigit(prefix[k])
    requires forall k :: 0 <= k < |suffix| ==> !IsDigit(suffix[k])
    ensures DigitsOf(prefix + digits + suffix) == digits
  {
    DigitsOfNoDigits(prefix);
    DigitsOfNoDigits(suffix);
    DigitsOfAppend(prefix, digits);
    DigitsOfAppend(prefix + digits, suffix);
    DigitsOfDigits(digits);
    assert DigitsOf(prefix + digits + suffix) == [] + digits + [];
    assert [] + digits + [] == digits;
  }

  /** The sequence key of the `n`-th results file is `n` too. */
  lemma KeyFuncRoundTrip(n: nat)
    ensures KeyFunc(RaceFileName(n)) == Some(n)
  {
    var prefix, digits, suffix := "./races", NatToString(n), ".csv";
    assert forall k :: 0 <= k < |prefix| ==> !IsDigit(prefix[k]);
    assert forall k :: 0 <= k < |suffix| ==> !IsDigit(suffix[k]);
    KeyFuncPieces(prefix, digits, suffix);
    NatToStringRoundTrip(n);
  }

  /**
   * Results files are ordered by their number, not by their name: the file
   * numbered 2 sorts before the file numbered 10, although "./races10.csv"
   * comes first in the order of the names.
   */
  lemma NumericOrder(a: CsvFile, b: CsvFile)
    requires a.path == RaceFileName(2) && b.path == RaceFileName(10)
    ensures Keyed(a) && Keyed(b) && SortFiles([b, a]) == [a, b]
  {
    KeyFuncRoundTrip(2);
    KeyFuncRoundTrip(10);
    assert Key(a) == 2 && Key(b) == 10;
    assert [b, a][0] == b && [b, a][1..] == [a];
    assert SortFiles([a]) == [a] by {
      assert [a][1..] == [];
    }
    assert Insert(b, [a]) == [a] + Insert(b, []) by {
      assert [a][0] == a && [a][1..] == [];
    }
  }
}
