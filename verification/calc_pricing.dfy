/**
  Model of the helpers in internal/calc/pricing.go: the region code to
  console label lookup, and the text extraction `parseUSD` performs before
  handing the number to the float parser (which is a parameter here).
 */
module CalcPricing {
  import opened Wrappers

  /**
    A region the console knows: its code and the place name. The label the
    switch returns for it is the place name followed by the code in
    brackets (`Caption`); each label in the switch is written out that way.
   */
  datatype Region = Region(code: string, place: string)

  function Caption(r: Region): string {
    r.place + " [" + r.code + "]"
  }

  /** The lookup table, in the order the switch tests the codes. */
  const Regions: seq<Region> := [
    Region("us-east-1", "US East (N. Virginia)"),
    Region("us-east-2", "US East (Ohio)"),
    Region("us-west-2", "US West (Oregon)"),
    Region("eu-west-1", "EU (Ireland)"),
    Region("sa-east-1", "South America (S\U{E3}o Paulo)")
  ]

  predicate Known(code: string) {
    exists i :: 0 <= i < |Regions| && Regions[i].code == code
  }

  /** The table entry for a code, first match in table order. */
  function Find(table: seq<Region>, code: string): (r: Option<Region>)
    ensures r.None? <==> forall i :: 0 <= i < |table| ==> table[i].code != code
    ensures r.Some? ==> r.value in table && r.value.code == code
  {
    if |table| == 0 then None
    else if table[0].code == code then Some(table[0])
    else Find(table[1..], code)
  }

  /** A label ends with the code in brackets. */
  predicate LabelledAs(text: string, code: string) {
    |text| >= |code| + 3
    && text[|text| - |code| - 3..] == " [" + code + "]"
  }

  /** Every caption ends with its own code in brackets. */
  lemma CaptionLabelled(r: Region)
    ensures LabelledAs(Caption(r), r.code)
  {
    var suffix := " [" + r.code + "]";
    assert Caption(r) == r.place + suffix;
    assert Caption(r)[|r.place|..] == suffix;
  }

  /** `regionLabelFromCode`: the console label of a known code; any other code unchanged. */
  function RegionLabelFromCode(code: string): (text: string)
    ensures Known(code) ==> LabelledAs(text, code)
    ensures !Known(code) ==> text == code
  {
    match Find(Regions, code)
    case Some(r) =>
      CaptionLabelled(r);
      Caption(r)
    case None => code
  }

  /** A label is never itself a known code, so labelling twice changes nothing. */
  lemma RegionLabelIdempotent(code: string)
    ensures RegionLabelFromCode(RegionLabelFromCode(code)) == RegionLabelFromCode(code)
  {
    var text := RegionLabelFromCode(code);
    if Known(code) {
      var i :| 0 <= i < |Regions| && Regions[i].code == code;
      CodeLengths();
      assert |text| > 9;
      assert !Known(text);
    }
  }

  lemma CodeLengths()
    ensures forall i :: 0 <= i < |Regions| ==> |Regions[i].code| == 9
  {
  }

  /** Different known codes get different labels. */
  lemma RegionLabelDistinct(a: string, b: string)
    requires Known(a) && Known(b)
    requires RegionLabelFromCode(a) == RegionLabelFromCode(b)
    ensures a == b
  {
    var i :| 0 <= i < |Regions| && Regions[i].code == a;
    var j :| 0 <= j < |Regions| && Regions[j].code == b;
    CodeLengths();
    SameSuffixSameCode(RegionLabelFromCode(a), a, b);
  }

  /** Two codes of one length that both bracket the end of a label are the same code. */
  lemma SameSuffixSameCode(text: string, a: string, b: string)
    requires LabelledAs(text, a) && LabelledAs(text, b) && |a| == |b|
    ensures a == b
  {
    var t := text[|text| - |a| - 3..];
    assert t == " [" + a + "]" && t == " [" + b + "]";
    assert a == t[2..|a| + 2] && b == t[2..|b| + 2];
  }

  /** No code appears twice in the table. */
  lemma CodesDistinct()
    ensures forall i, j :: 0 <= i < j < |Regions| ==> Regions[i].code != Regions[j].code
  {
    assert Regions[0].code[8] != Regions[1].code[8];
    assert Regions[0].code[3] != Regions[2].code[3];
    assert Regions[1].code[3] != Regions[2].code[3];
    assert Regions[0].code[0] != Regions[3].code[0];
    assert Regions[1].code[0] != Regions[3].code[0];
    assert Regions[2].code[0] != Regions[3].code[0];
    assert Regions[0].code[0] != Regions[4].code[0];
    assert Regions[1].code[0] != Regions[4].code[0];
    assert Regions[2].code[0] != Regions[4].code[0];
    assert Regions[3].code[0] != Regions[4].code[0];
  }

  /** The entry found is the first one with the code. */
  lemma {:induction false} FindFirst(table: seq<Region>, k: nat, code: string)
    requires k < |table| && table[k].code == code
    requires forall i :: 0 <= i < k ==> table[i].code != code
    ensures Find(table, code) == Some(table[k])
  {
    if k > 0 {
      FindFirst(table[1..], k - 1, code);
    }
  }

  /** Each known code gets exactly the label its table row spells out. */
  lemma RegionLabelOfEntry(k: nat)
    requires k < |Regions|
    ensures RegionLabelFromCode(Regions[k].code) == Caption(Regions[k])
  {
    CodesDistinct();
    FindFirst(Regions, k, Regions[k].code);
  }

  // ---- parseUSD ----

  /** The character class `[0-9.,]`. */
  predicate NumChar(c: char) {
    '0' <= c <= '9' || c == '.' || c == ','
  }

  predicate NoNumChar(s: string) {
    forall i :: 0 <= i < |s| ==> !NumChar(s[i])
  }

  predicate AllNumChar(s: string) {
    forall i :: 0 <= i < |s| ==> NumChar(s[i])
  }

  /** Index of the first character of the class, or `|s|`. */
  function FirstNum(s: string): (i: nat)
    ensures i <= |s|
    ensures NoNumChar(s[..i])
    ensures i < |s| ==> NumChar(s[i])
  {
    if |s| == 0 then 0
    else if NumChar(s[0]) then 0
    else
      var i := 1 + FirstNum(s[1..]);
      assert s[..i] == [s[0]] + s[1..][..i - 1];
      i
  }

  /** The longest prefix made of class characters. */
  function TakeNum(s: string): (m: string)
    ensures |m| <= |s| && m == s[..|m|]
    ensures AllNumChar(m)
    ensures |m| < |s| ==> !NumChar(s[|m|])
  {
    if |s| == 0 || !NumChar(s[0]) then ""
    else [s[0]] + TakeNum(s[1..])
  }

  /** `regexp.FindString` for `[0-9.,]+`: the leftmost, longest run of class characters, or "" when none. */
  function FindRun(s: string): (m: string)
    ensures AllNumChar(m)
  {
    TakeNum(s[FirstNum(s)..])
  }

  /** `strings.ReplaceAll(m, ",", "")`. */
  function StripCommas(m: string): (r: string)
    ensures ',' !in r
    ensures |r| <= |m|
  {
    if |m| == 0 then ""
    else if m[0] == ',' then StripCommas(m[1..])
    else [m[0]] + StripCommas(m[1..])
  }

  /**
    `s` splits into `pre + m + post` with `m` the match of `[0-9.,]+` that
    `regexp.FindString` reports: nothing before it is a class character,
    `m` is made of them, the character after it is not one, and `m` is empty
    only when `s` has no class character at all.
   */
  predicate LeftmostRun(s: string, pre: string, m: string, post: string) {
    s == pre + m + post
    && NoNumChar(pre)
    && AllNumChar(m)
    && (|post| > 0 ==> !NumChar(post[0]))
    && (|m| == 0 ==> NoNumChar(s))
  }

  /**
    The string `parseUSD` hands to the float parser: the leftmost maximal run
    of `[0-9.,]` with its commas removed, which leaves digits and dots only.
   */
  function UsdText(s: string): (t: string)
    ensures forall i :: 0 <= i < |t| ==> '0' <= t[i] <= '9' || t[i] == '.'
    ensures exists pre, m, post :: LeftmostRun(s, pre, m, post)
    ensures forall pre, m, post :: LeftmostRun(s, pre, m, post) ==> t == StripCommas(m)
  {
    var m := FindRun(s);
    StripCommasKeepsClass(m);
    FindRunIsLeftmost(s);
    FindRunUnique(s);
    StripCommas(m)
  }

  lemma {:induction false} StripCommasKeepsClass(m: string)
    requires AllNumChar(m)
    ensures AllNumChar(StripCommas(m))
  {
    if |m| > 0 {
      StripCommasKeepsClass(m[1..]);
    }
  }

  /** `parseUSD`, with `strconv.ParseFloat` as a parameter. */
  function ParseUSD(s: string, parseFloat: string -> Result<real, string>): (r: Result<real, string>)
    ensures exists pre, m, post :: LeftmostRun(s, pre, m, post)
    ensures forall pre, m, post :: LeftmostRun(s, pre, m, post) ==> r == parseFloat(StripCommas(m))
  {
    parseFloat(UsdText(s))
  }

  /**
    The run is found where the regular expression finds it: `s` splits
    into a prefix without class characters, the run, and a rest that does
    not continue it; the run is empty exactly when `s` has no class character.
   */
  lemma FindRunSplits(s: string) returns (pre: string, post: string)
    ensures s == pre + FindRun(s) + post
    ensures NoNumChar(pre)
    ensures |post| > 0 ==> !NumChar(post[0])
    ensures FindRun(s) == "" <==> NoNumChar(s)
  {
    var i := FirstNum(s);
    var m := FindRun(s);
    pre := s[..i];
    post := s[i + |m|..];
    assert s[i..] == m + post;
    assert s == pre + s[i..];
    if i < |s| {
      assert |m| > 0;
    } else {
      assert s == pre;
    }
  }

  /** `FindRun` picks the leftmost maximal run. */
  lemma FindRunIsLeftmost(s: string)
    ensures var i := FirstNum(s);
            i + |FindRun(s)| <= |s|
            && LeftmostRun(s, s[..i], FindRun(s), s[i + |FindRun(s)|..])
  {
    var i := FirstNum(s);
    var m := FindRun(s);
    var rest := s[i..];
    assert m == rest[..|m|];
    var pre := s[..i];
    var post := s[i + |m|..];
    assert rest == m + post;
    assert s == pre + m + post;
    if |m| == 0 {
      assert s == pre;
    }
    assert LeftmostRun(s, pre, m, post);
  }

  /** Any decomposition `LeftmostRun` accepts has `FindRun`'s match in the middle. */
  lemma FindRunUnique(s: string)
    ensures forall pre, m, post :: LeftmostRun(s, pre, m, post) ==> m == FindRun(s)
  {
    forall pre, m, post | LeftmostRun(s, pre, m, post)
      ensures m == FindRun(s)
    {
      var i := FirstNum(s);
      if |m| == 0 {
        assert i == |s|;
      } else {
        assert s[|pre|] == m[0];
        assert i == |pre|;
        var rest := s[i..];
        assert rest == m + post;
        var k := TakeNum(rest);
        assert k == rest[..|m|] == m;
      }
    }
  }

  /** Commas go, every other character stays, in order. */
  lemma {:induction false} StripCommasKeeps(m: string)
    ensures ',' !in m ==> StripCommas(m) == m
    ensures StripCommas(StripCommas(m)) == StripCommas(m)
  {
    if |m| > 0 {
      StripCommasKeeps(m[1..]);
      if m[0] != ',' {
        assert StripCommas([m[0]] + StripCommas(m[1..])) == [m[0]] + StripCommas(StripCommas(m[1..])) by {
          assert ([m[0]] + StripCommas(m[1..]))[1..] == StripCommas(m[1..]);
        }
      }
    }
  }

  /** Removing commas distributes over concatenation. */
  lemma {:induction false} StripCommasAppend(a: string, b: string)
    ensures StripCommas(a + b) == StripCommas(a) + StripCommas(b)
  {
    if |a| > 0 {
      assert (a + b)[0] == a[0];
      assert (a + b)[1..] == a[1..] + b;
      StripCommasAppend(a[1..], b);
      if a[0] != ',' {
        assert StripCommas(a) + StripCommas(b) == [a[0]] + (StripCommas(a[1..]) + StripCommas(b));
      }
    } else {
      assert a + b == b;
    }
  }

  /** A single character: a comma vanishes, anything else is kept. */
  lemma StripCommasChar(c: char)
    ensures StripCommas([c]) == if c == ',' then "" else [c]
  {
    assert [c][1..] == "";
  }

  /** Extraction is idempotent: the extracted text extracts to itself. */
  lemma UsdTextIdempotent(s: string)
    ensures UsdText(UsdText(s)) == UsdText(s)
  {
    var t := UsdText(s);
    if t == "" {
      assert FindRun("") == "";
      return;
    }
    TakeAll(t);
    assert FirstNum(t) == 0;
    assert t[0..] == t;
    StripCommasKeeps(t);
  }

  lemma {:induction false} TakeAll(t: string)
    requires AllNumChar(t)
    ensures TakeNum(t) == t
  {
    if |t| > 0 {
      TakeAll(t[1..]);
      assert t == [t[0]] + t[1..];
    }
  }

  /** The documented example: "$1,234.56" becomes "1234.56". */
  lemma UsdTextExample()
    ensures UsdText("$1,234.56") == "1234.56"
  {
    FindRunExample();
    StripCommasExample();
  }

  lemma FindRunExample()
    ensures FindRun("$1,234.56") == "1,234.56"
  {
    var s := "$1,234.56";
    assert FirstNum(s[1..]) == 0;
    assert FirstNum(s) == 1;
    assert s[1..] == "1,234.56";
    TakeAll("1,234.56");
  }

  lemma StripCommasExample()
    ensures StripCommas("1,234.56") == "1234.56"
  {
    StripCommasKeeps("234.56");
    assert StripCommas("1,234.56") == "1" + StripCommas("234.56");
  }
}
