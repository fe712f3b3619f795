/**
 * The composite-field parsers: the per-value lambdas of the cleaner that split
 * "RACE 1 (284)", "CLASS 4 - 1200M" and "RICH AND LUCKY (C413)" into their
 * parts. Each is total: a missing parenthesis or dash gives the sentinel
 * "Unknown" or the whole field, never an error.
 */
module Fields {
  import opened Strings

  const UNKNOWN := "Unknown"

  /**
   * `race_no` from `race_name`, and `horse_name` from `horse_name` (the two
   * lambdas are the same): the text before the first "(", stripped, with
   * spaces turned into "_"; with no "(", the whole field with "_" for spaces.
   */
  function Label(x: string): (r: string)
    ensures ' ' !in r
    ensures '(' !in x ==> |r| == |x|
  {
    if '(' in x then
      var piece := Strip(Split(x, '(')[0]);
      ReplaceRemoves(piece, ' ', '_');
      Replace(piece, ' ', '_')
    else
      ReplaceRemoves(x, ' ', '_');
      Replace(x, ' ', '_')
  }

  /** `race_id` from `race_name`: the piece after the first "(" less its last character, when both parentheses occur. */
  function RaceId(x: string): (r: string)
    ensures !('(' in x && ')' in x) ==> r == UNKNOWN
    ensures '(' in x && ')' in x ==> '(' !in r
  {
    if '(' in x && ')' in x then
      var piece := Split(x, '(')[1];
      DropLastKeeps(piece, '(');
      DropLast(piece)
    else UNKNOWN
  }

  /** `horse_id` from `horse_name`: as `RaceId`, but the piece is stripped before its last character goes. */
  function HorseId(x: string): (r: string)
    ensures !('(' in x && ')' in x) ==> r == UNKNOWN
    ensures '(' in x && ')' in x ==> '(' !in r && (r == [] || !IsSpace(r[0]))
  {
    if '(' in x && ')' in x then
      var piece := Split(x, '(')[1];
      var stripped := Strip(piece);
      StripKeeps(piece, '(');
      DropLastKeeps(stripped, '(');
      DropLast(stripped)
    else UNKNOWN
  }

  /** The normalisation of a categorical piece: stripped, spaces to "_", upper-cased. */
  function Category(s: string): string {
    Upper(Replace(Strip(s), ' ', '_'))
  }

  /** `race_dist` from `race_type`: the piece after the first "-", normalised, with every trailing "M" removed. */
  function RaceDist(x: string): (r: string)
    ensures '-' !in x ==> r == UNKNOWN
    ensures '-' in x ==> Normal(r) && (r == [] || r[|r| - 1] != 'M')
  {
    if '-' in x then
      var piece := Split(x, '-')[1];
      UpperReplaceNormal(Strip(piece));
      NormalWithoutM(Category(piece));
      RStripChar(Category(piece), 'M')
    else UNKNOWN
  }

  /** `race_type` from `race_type`: the piece before the first "-", normalised; with no "-", the whole field, unstripped. */
  function RaceType(x: string): (r: string)
    ensures Normal(r)
  {
    if '-' in x then
      var piece := Split(x, '-')[0];
      UpperReplaceNormal(Strip(piece));
      Category(piece)
    else
      UpperReplaceNormal(x);
      Upper(Replace(x, ' ', '_'))
  }

  /** A piece already in normal form: no whitespace, no dash, no lower-case letter. */
  predicate Token(s: string) {
    forall k :: 0 <= k < |s| ==> !IsSpace(s[k]) && s[k] != '-' && !('a' <= s[k] <= 'z')
  }

  /** A string in which there is no space and no lower-case ASCII letter. */
  predicate Normal(s: string) {
    forall k :: 0 <= k < |s| ==> s[k] != ' ' && !('a' <= s[k] <= 'z')
  }

  // ---------------------------------------------------------------------------
  // Lemmas

  lemma UpperReplaceNormal(s: string)
    ensures Normal(Upper(Replace(s, ' ', '_')))
  {
    ReplaceRemoves(s, ' ', '_');
    var r := Replace(s, ' ', '_');
    forall k | 0 <= k < |r|
      ensures r[k] != ' '
    {
    }
  }

  /** Dropping the last character keeps out a character the string did not hold. */
  lemma DropLastKeeps(s: string, c: char)
    requires c !in s
    ensures c !in DropLast(s)
  {
    if |s| > 0 {
      assert forall k :: 0 <= k < |s| - 1 ==> DropLast(s)[k] == s[k];
    }
  }

  /** Stripping keeps out a character the string did not hold. */
  lemma StripKeeps(s: string, c: char)
    requires c !in s
    ensures c !in Strip(s)
  {
    var l := LStrip(s);
    var r := RStrip(l);
    assert forall k :: 0 <= k < |l| ==> l[k] == s[|s| - |l| + k];
    assert forall k :: 0 <= k < |r| ==> r[k] == l[k];
  }

  /** Removing the trailing "M"s keeps a normal string normal, and leaves no "M" at its end. */
  lemma NormalWithoutM(c: string)
    requires Normal(c)
    ensures var d := RStripChar(c, 'M'); Normal(d) && (d == [] || d[|d| - 1] != 'M')
  {
    var d := RStripChar(c, 'M');
    assert forall k :: 0 <= k < |d| ==> d[k] == c[k];
  }

  /** "NAME (ID)", with no "(" in the name or the id, splits on "(" into "NAME " and "ID)". */
  lemma ParenthesisedSplit(name: string, id: string)
    requires '(' !in name && '(' !in id
    ensures '(' in name + " (" + id + ")" && ')' in name + " (" + id + ")"
    ensures Split(name + " (" + id + ")", '(') == [name + " ", id + ")"]
  {
    var x := name + " (" + id + ")";
    assert x == (name + " ") + ['('] + (id + ")");
    assert x[|x| - 1] == ')';
    assert '(' !in name + " " && '(' !in id + ")";
    SplitTwo(name + " ", '(', id + ")");
  }

  /** Stripping "ID)" leaves the id without its leading whitespace, followed by ")". */
  lemma StripClosed(id: string)
    ensures Strip(id + ")") == LStrip(id) + ")"
  {
    var l := LStrip(id) + ")";
    LStripClosed(id);
    assert RStrip(l) == l by {
      assert !IsSpace(l[|l| - 1]);
    }
  }

  lemma {:induction false} LStripClosed(id: string)
    ensures LStrip(id + ")") == LStrip(id) + ")"
  {
    var x := id + ")";
    if id == [] {
      assert x == ")";
    } else if IsSpace(id[0]) {
      assert x[0] == id[0] && x[1..] == id[1..] + ")";
      LStripClosed(id[1..]);
    } else {
      assert x[0] == id[0];
    }
  }

  /**
   * "NAME (ID)": with no "(" in the name or the id, the race id is the id,
   * the horse id is the id without its leading whitespace, and the
   * label is the name stripped and underscored.
   */
  lemma Parenthesised(name: string, id: string)
    requires '(' !in name && '(' !in id
    ensures RaceId(name + " (" + id + ")") == id
    ensures HorseId(name + " (" + id + ")") == LStrip(id)
    ensures Label(name + " (" + id + ")") == Replace(Strip(name), ' ', '_')
  {
    ParenthesisedSplit(name, id);
    assert DropLast(id + ")") == id;
    StripClosed(id);
    assert DropLast(LStrip(id) + ")") == LStrip(id);
    StripTrailingSpace(name, ' ');
  }

  /** With no "(" in the field, there is no id and the name is the whole field underscored. */
  lemma Unparenthesised(x: string)
    requires '(' !in x
    ensures RaceId(x) == UNKNOWN && HorseId(x) == UNKNOWN
    ensures Label(x) == Replace(x, ' ', '_')
  {
  }

  /** "TYPE-DIST": with no "-" in either piece, both are normalised, and the distance loses its trailing "M"s. */
  lemma Dashed(ty: string, dist: string)
    requires '-' !in ty && '-' !in dist
    ensures RaceType(ty + "-" + dist) == Category(ty)
    ensures RaceDist(ty + "-" + dist) == RStripChar(Category(dist), 'M')
  {
    SplitTwo(ty, '-', dist);
    assert ty + "-" + dist == ty + ['-'] + dist;
  }

  /** With no "-" in the field there is no distance, and the race type is the field underscored and upper-cased. */
  lemma Undashed(x: string)
    requires '-' !in x
    ensures RaceDist(x) == UNKNOWN && RaceType(x) == Upper(Replace(x, ' ', '_'))
  {
  }

  lemma TokenCategory(s: string)
    requires Token(s)
    ensures Category(s) == s
  {
    assert Stripped(s) by {
      if s != [] {
        assert !IsSpace(s[0]) && !IsSpace(s[|s| - 1]);
      }
    }
    StripStripped(s);
    assert Replace(s, ' ', '_') == s by {
      forall k | 0 <= k < |s|
        ensures Replace(s, ' ', '_')[k] == s[k]
      {
        assert !IsSpace(s[k]);
      }
    }
    UpperIdempotent(s);
  }

  /** A token followed by a space normalises to the token. */
  lemma TokenSpaced(ty: string)
    requires Token(ty)
    ensures Category(ty + " ") == ty
  {
    assert ty + " " == ty + [' '];
    StripTrailingSpace(ty, ' ');
    TokenCategory(ty);
  }

  /** A space, a token and "M" normalise to the token and "M". */
  lemma SpacedTokenM(dist: string)
    requires Token(dist)
    ensures Category(" " + dist + "M") == dist + "M"
  {
    var d := dist + "M";
    assert Token(d) by {
      assert forall k :: 0 <= k < |dist| ==> d[k] == dist[k];
      assert d[|dist|] == 'M';
    }
    assert Stripped(d) by {
      assert !IsSpace(d[0]) && !IsSpace(d[|d| - 1]);
    }
    StripPadded(" ", d, "");
    assert " " + d + "" == " " + dist + "M";
    TokenCategory(d);
  }

  /**
   * Normal forms come back unchanged: "TYPE - DISTM" with TYPE and DIST
   * tokens, DIST not ending in "M", parses to exactly TYPE and DIST.
   */
  lemma RaceTypeRoundTrip(ty: string, dist: string)
    requires Token(ty) && Token(dist) && (dist == [] || dist[|dist| - 1] != 'M')
    ensures RaceType(ty + " - " + dist + "M") == ty
    ensures RaceDist(ty + " - " + dist + "M") == dist
  {
    var left, right := ty + " ", " " + dist + "M";
    RoundTripPieces(ty, dist);
    Dashed(left, right);
    TokenSpaced(ty);
    SpacedTokenM(dist);
    DropM(dist);
  }

  /** "TYPE - DISTM" is "TYPE ", a dash and " DISTM", with no dash in either piece. */
  lemma RoundTripPieces(ty: string, dist: string)
    requires Token(ty) && Token(dist)
    ensures ty + " - " + dist + "M" == (ty + " ") + "-" + (" " + dist + "M")
    ensures '-' !in ty + " " && '-' !in " " + dist + "M"
  {
    var left, right := ty + " ", " " + dist + "M";
    assert forall k :: 0 <= k < |left| ==> left[k] != '-';
    assert forall k :: 0 <= k < |right| ==> right[k] != '-';
  }

  lemma DropM(dist: string)
    requires dist == [] || dist[|dist| - 1] != 'M'
    ensures RStripChar(dist + "M", 'M') == dist
  {
    assert (dist + "M")[..|dist|] == dist;
  }

  /** The literal facts the race-name example rests on. */
  lemma RaceNamePieces(x: string, name: string)
    requires x == "RACE 1 (284)" && name == "RACE 1"
    ensures x == name + " (" + "284" + ")" && '(' !in name
    ensures Stripped(name) && Replace(name, ' ', '_') == "RACE_1"
  {
  }

  /** The race-name example of the source's comments: "RACE 1 (284)" gives 284 and RACE_1. */
  lemma RaceNameExample(x: string)
    requires x == "RACE 1 (284)"
    ensures RaceId(x) == "284" && Label(x) == "RACE_1"
  {
    RaceNamePieces(x, "RACE 1");
    Parenthesised("RACE 1", "284");
    StripStripped("RACE 1");
  }

  /** The literal facts the race-type example rests on. */
  lemma RaceTypePieces(x: string, name: string, d: string)
    requires x == "CLASS 4 - 1200M" && name == "CLASS 4" && d == "1200M"
    ensures x == (name + " ") + "-" + (" " + d + "") && '-' !in name + " " && '-' !in " " + d + ""
    ensures Stripped(name) && Upper(Replace(name, ' ', '_')) == "CLASS_4"
    ensures Token(d) && RStripChar(d, 'M') == "1200"
  {
  }

  /** The race-type example: "CLASS 4 - 1200M" gives CLASS_4 and 1200. */
  lemma RaceTypeExample(x: string)
    requires x == "CLASS 4 - 1200M"
    ensures RaceType(x) == "CLASS_4" && RaceDist(x) == "1200"
  {
    var name, d := "CLASS 4", "1200M";
    RaceTypePieces(x, name, d);
    Dashed(name + " ", " " + d + "");
    StripTrailingSpace(name, ' ');
    StripStripped(name);
    StripPadded(" ", d, "");
    TokenCategory(d);
  }

  /** The literal facts the horse-name example rests on. */
  lemma HorseNamePieces(x: string, name: string, id: string)
    requires x == "RICH AND LUCKY (C413)" && name == "RICH AND LUCKY" && id == "C413"
    ensures x == name + " (" + id + ")" && '(' !in name && '(' !in id
    ensures Stripped(name) && Replace(name, ' ', '_') == "RICH_AND_LUCKY" && !IsSpace(id[0])
  {
  }

  /** The horse-name example: "RICH AND LUCKY (C413)" gives C413 and RICH_AND_LUCKY. */
  lemma HorseNameExample(x: string)
    requires x == "RICH AND LUCKY (C413)"
    ensures HorseId(x) == "C413" && Label(x) == "RICH_AND_LUCKY"
  {
    var name, id := "RICH AND LUCKY", "C413";
    HorseNamePieces(x, name, id);
    Parenthesised(name, id);
    StripStripped(name);
  }
}
