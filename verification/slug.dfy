/**
  Model of `slugify` (internal/commands/map.go): lower-case, trim white
  space, turn spaces and underscores into `-`, drop everything outside
  `[a-z0-9-]`, collapse runs of `-`, and trim `-` from both ends. Letters are
  lowered over ASCII only.
 */
module Slug {

  /** Characters a slug may hold: `[a-z0-9-]`. */
  predicate Allowed(c: char) {
    ('a' <= c <= 'z') || ('0' <= c <= '9') || c == '-'
  }

  /** White space as Go's `unicode.IsSpace` sees it. */
  predicate IsSpace(c: char) {
    c == ' ' || ('\t' <= c <= '\r') || c == '\U{85}' || c == '\U{A0}'
    || c == '\U{1680}' || ('\U{2000}' <= c <= '\U{200A}') || c == '\U{2028}'
    || c == '\U{2029}' || c == '\U{202F}' || c == '\U{205F}' || c == '\U{3000}'
  }

  predicate NoDoubleDash(s: string) {
    forall i :: 0 <= i < |s| - 1 ==> !(s[i] == '-' && s[i + 1] == '-')
  }

  /** The shape every slug has: allowed characters, no `--`, no `-` at either end. */
  predicate IsSlug(s: string) {
    && (forall i :: 0 <= i < |s| ==> Allowed(s[i]))
    && NoDoubleDash(s)
    && (|s| > 0 ==> s[0] != '-' && s[|s| - 1] != '-')
  }

  function LowerChar(c: char): (d: char)
    ensures !('A' <= d <= 'Z')
    ensures 'A' <= c <= 'Z' ==> d as int == c as int + 32
    ensures !('A' <= c <= 'Z') ==> d == c
  {
    if 'A' <= c <= 'Z' then (c as int + 32) as char else c
  }

  /** `strings.ToLower`, restricted to ASCII letters. */
  function LowerAscii(s: string): (r: string)
    ensures |r| == |s|
    ensures forall i :: 0 <= i < |r| ==> !('A' <= r[i] <= 'Z')
  {
    seq(|s|, i requires 0 <= i < |s| => LowerChar(s[i]))
  }

  function TrimLeftSpace(s: string): (r: string)
    ensures |r| <= |s| && r == s[|s| - |r|..]
    ensures forall i :: 0 <= i < |s| - |r| ==> IsSpace(s[i])
    ensures |r| > 0 ==> !IsSpace(r[0])
  {
    if |s| > 0 && IsSpace(s[0]) then TrimLeftSpace(s[1..]) else s
  }

  function TrimRightSpace(s: string): (r: string)
    ensures |r| <= |s| && r == s[..|r|]
    ensures forall i :: |r| <= i < |s| ==> IsSpace(s[i])
    ensures |r| > 0 ==> !IsSpace(r[|r| - 1])
  {
    if |s| > 0 && IsSpace(s[|s| - 1]) then TrimRightSpace(s[..|s| - 1]) else s
  }

  /** `strings.TrimSpace`. */
  function TrimSpace(s: string): string {
    TrimRightSpace(TrimLeftSpace(s))
  }

  function SeparatorChar(c: char): char {
    if c == ' ' || c == '_' then '-' else c
  }

  /** `strings.NewReplacer(" ", "-", "_", "-").Replace`. */
  function ReplaceSeparators(s: string): (r: string)
    ensures |r| == |s|
    ensures forall i :: 0 <= i < |s| ==> (r[i] == '-' <==> s[i] in {' ', '_', '-'})
    ensures forall i :: 0 <= i < |s| && s[i] !in {' ', '_'} ==> r[i] == s[i]
  {
    seq(|s|, i requires 0 <= i < |s| => SeparatorChar(s[i]))
  }

  /** Removing every match of `[^a-z0-9-]+`. */
  function DropDisallowed(s: string): (r: string)
    ensures |r| <= |s|
    ensures forall i :: 0 <= i < |r| ==> Allowed(r[i])
  {
    if |s| == 0 then []
    else (if Allowed(s[0]) then [s[0]] else []) + DropDisallowed(s[1..])
  }

  /** Replacing every match of `-+` by a single `-`. */
  function CollapseDashes(s: string): (r: string)
    ensures |r| <= |s|
    ensures |s| > 0 ==> |r| > 0 && r[0] == s[0] && r[|r| - 1] == s[|s| - 1]
  {
    if |s| == 0 then []
    else if s[0] == '-' && |s| > 1 && s[1] == '-' then CollapseDashes(s[1..])
    else [s[0]] + CollapseDashes(s[1..])
  }

  /** Collapsing only drops characters, and leaves no `--`. */
  lemma {:induction false} CollapseShape(s: string)
    ensures forall i :: 0 <= i < |CollapseDashes(s)| ==> CollapseDashes(s)[i] in s
    ensures NoDoubleDash(CollapseDashes(s))
  {
    if |s| > 0 {
      CollapseShape(s[1..]);
      var t := CollapseDashes(s[1..]);
      var r := CollapseDashes(s);
      if s[0] == '-' && |s| > 1 && s[1] == '-' {
        assert r == t;
        assert forall c :: c in s[1..] ==> c in s;
      } else {
        assert r == [s[0]] + t;
        forall i | 0 <= i < |r| ensures r[i] in s {
          if i > 0 { assert r[i] == t[i - 1]; assert t[i - 1] in s[1..]; }
        }
        forall i | 0 <= i < |r| - 1 ensures !(r[i] == '-' && r[i + 1] == '-') {
          if i == 0 {
            assert r[1] == t[0] == s[1];
          } else {
            assert r[i] == t[i - 1] && r[i + 1] == t[i];
          }
        }
      }
    }
  }

  function TrimLeftDash(s: string): (r: string)
    ensures |r| <= |s| && r == s[|s| - |r|..]
    ensures forall i :: 0 <= i < |s| - |r| ==> s[i] == '-'
    ensures |r| > 0 ==> r[0] != '-'
  {
    if |s| > 0 && s[0] == '-' then TrimLeftDash(s[1..]) else s
  }

  function TrimRightDash(s: string): (r: string)
    ensures |r| <= |s| && r == s[..|r|]
    ensures forall i :: |r| <= i < |s| ==> s[i] == '-'
    ensures |r| > 0 ==> r[|r| - 1] != '-'
  {
    if |s| > 0 && s[|s| - 1] == '-' then TrimRightDash(s[..|s| - 1]) else s
  }

  /** `strings.Trim(s, "-")`. */
  function TrimDashes(s: string): (r: string)
    ensures |r| > 0 ==> r[0] != '-' && r[|r| - 1] != '-'
  {
    TrimRightDash(TrimLeftDash(s))
  }

  /** Trimming keeps a contiguous piece of the input, so it adds no character and no `--`. */
  lemma TrimDashesShape(s: string)
    ensures forall i :: 0 <= i < |TrimDashes(s)| ==> TrimDashes(s)[i] in s
    ensures NoDoubleDash(s) ==> NoDoubleDash(TrimDashes(s))
  {
    var l := TrimLeftDash(s);
    var r := TrimRightDash(l);
    SliceKeepsShape(s, |s| - |l|, |s|);
    SliceKeepsShape(l, 0, |r|);
  }

  lemma SliceKeepsShape(s: string, a: nat, b: nat)
    requires a <= b <= |s|
    ensures forall i :: 0 <= i < b - a ==> s[a..b][i] in s
    ensures NoDoubleDash(s) ==> NoDoubleDash(s[a..b])
  {
    forall i | 0 <= i < b - a
      ensures s[a..b][i] in s
    {
      assert s[a..b][i] == s[a + i];
    }
    if NoDoubleDash(s) {
      forall i | 0 <= i < b - a - 1
        ensures !(s[a..b][i] == '-' && s[a..b][i + 1] == '-')
      {
        assert s[a..b][i] == s[a + i] && s[a..b][i + 1] == s[a + i + 1];
      }
    }
  }

  /** The whole normalisation, stage by stage as the source applies it. */
  function Slugify(s: string): (r: string)
    ensures IsSlug(r)
  {
    var d := DropDisallowed(ReplaceSeparators(TrimSpace(LowerAscii(s))));
    var c := CollapseDashes(d);
    CollapseShape(d);
    TrimDashesShape(c);
    TrimDashes(c)
  }

  // ---------------------------------------------------------------------
  // Fixed points and idempotence
  // ---------------------------------------------------------------------

  lemma {:induction false} DropDisallowedKeeps(s: string)
    requires forall i :: 0 <= i < |s| ==> Allowed(s[i])
    ensures DropDisallowed(s) == s
  {
    if |s| > 0 {
      DropDisallowedKeeps(s[1..]);
      assert s == [s[0]] + s[1..];
    }
  }

  lemma {:induction false} CollapseKeeps(s: string)
    requires NoDoubleDash(s)
    ensures CollapseDashes(s) == s
  {
    if |s| > 0 {
      assert NoDoubleDash(s[1..]) by {
        forall i | 0 <= i < |s[1..]| - 1
          ensures !(s[1..][i] == '-' && s[1..][i + 1] == '-')
        {
          assert s[1..][i] == s[i + 1] && s[1..][i + 1] == s[i + 2];
        }
      }
      CollapseKeeps(s[1..]);
      assert s == [s[0]] + s[1..];
    }
  }

  lemma LowerKeepsSlug(t: string)
    requires IsSlug(t)
    ensures LowerAscii(t) == t
  {
    assert forall i :: 0 <= i < |t| ==> LowerAscii(t)[i] == t[i];
  }

  lemma TrimSpaceKeepsSlug(t: string)
    requires |t| > 0 ==> Allowed(t[0]) && Allowed(t[|t| - 1])
    ensures TrimSpace(t) == t
  {
    if |t| > 0 {
      AllowedIsNotSpace(t[0]);
      assert TrimLeftSpace(t) == t;
      AllowedIsNotSpace(t[|t| - 1]);
      assert TrimRightSpace(t) == t;
    }
  }

  lemma AllowedIsNotSpace(c: char)
    requires Allowed(c)
    ensures !IsSpace(c)
  {
  }

  lemma ReplaceKeepsSlug(t: string)
    requires IsSlug(t)
    ensures ReplaceSeparators(t) == t
  {
    assert forall i :: 0 <= i < |t| ==> ReplaceSeparators(t)[i] == t[i];
  }

  lemma TrimDashesKeepsSlug(t: string)
    requires IsSlug(t)
    ensures TrimDashes(t) == t
  {
  }

  /** Every slug is left unchanged by `Slugify`. */
  lemma SlugifyKeepsSlug(t: string)
    requires IsSlug(t)
    ensures Slugify(t) == t
  {
    LowerKeepsSlug(t);
    TrimSpaceKeepsSlug(t);
    ReplaceKeepsSlug(t);
    DropDisallowedKeeps(t);
    CollapseKeeps(t);
    TrimDashesKeepsSlug(t);
  }

  /** A string is a fixed point of `Slugify` exactly when it has slug shape. */
  lemma SlugifyFixedPoint(t: string)
    ensures Slugify(t) == t <==> IsSlug(t)
  {
    if IsSlug(t) { SlugifyKeepsSlug(t); }
  }

  /** Normalising twice gives what normalising once gives. */
  lemma SlugifyIdempotent(s: string)
    ensures Slugify(Slugify(s)) == Slugify(s)
  {
    SlugifyKeepsSlug(Slugify(s));
  }

  // ---------------------------------------------------------------------
  // Separators, case and white space
  // ---------------------------------------------------------------------

  predicate AllDashes(s: string) {
    forall i :: 0 <= i < |s| ==> s[i] == '-'
  }

  /** The per-character stages (separators, then the filter). */
  function Clean(s: string): string {
    DropDisallowed(ReplaceSeparators(s))
  }

  /** The run-collapsing stages (collapse, then trim). */
  function Finish(s: string): string {
    TrimDashes(CollapseDashes(s))
  }

  lemma {:induction false} DropDisallowedAppend(a: string, b: string)
    ensures DropDisallowed(a + b) == DropDisallowed(a) + DropDisallowed(b)
  {
    if |a| > 0 {
      assert (a + b)[0] == a[0];
      assert (a + b)[1..] == a[1..] + b;
      DropDisallowedAppend(a[1..], b);
    } else {
      assert a + b == b;
    }
  }

  lemma CleanAppend(a: string, b: string)
    ensures Clean(a + b) == Clean(a) + Clean(b)
  {
    assert ReplaceSeparators(a + b) == ReplaceSeparators(a) + ReplaceSeparators(b);
    DropDisallowedAppend(ReplaceSeparators(a), ReplaceSeparators(b));
  }

  lemma {:induction false} DropOnlyDashes(x: string)
    requires forall i :: 0 <= i < |x| ==> x[i] == '-' || !Allowed(x[i])
    ensures AllDashes(DropDisallowed(x))
  {
    if |x| > 0 {
      DropOnlyDashes(x[1..]);
    }
  }

  /** White space cleans to nothing but separators. */
  lemma CleanOfSpaces(w: string)
    requires AllSpace(w)
    ensures AllDashes(Clean(w))
  {
    DropOnlyDashes(ReplaceSeparators(w));
  }

  lemma {:induction false} CollapseAppendDash(m: string)
    ensures CollapseDashes(m + ['-']) ==
              if |m| > 0 && m[|m| - 1] == '-' then CollapseDashes(m) else CollapseDashes(m) + ['-']
  {
    if |m| == 0 {
      assert m + ['-'] == ['-'];
    } else if |m| == 1 {
      var c := m[0];
      assert m + ['-'] == [c, '-'];
      assert [c, '-'][1..] == ['-'];
      assert CollapseDashes(['-']) == ['-'];
      assert CollapseDashes(m) == [c];
    } else {
      var c := m[0];
      var r := m[1..];
      var mm := m + ['-'];
      assert mm[0] == c && mm[1] == r[0] && |mm| > 1;
      assert mm[1..] == r + ['-'];
      CollapseAppendDash(r);
      assert r[|r| - 1] == m[|m| - 1];
      if c == '-' && r[0] == '-' {
        assert CollapseDashes(mm) == CollapseDashes(r + ['-']);
        assert CollapseDashes(m) == CollapseDashes(r);
      } else {
        assert CollapseDashes(mm) == [c] + CollapseDashes(r + ['-']);
        assert CollapseDashes(m) == [c] + CollapseDashes(r);
      }
    }
  }

  lemma {:induction false} TrimLeftDashAppend(y: string, z: string)
    requires |y| > 0 && y[|y| - 1] != '-'
    ensures TrimLeftDash(y + z) == TrimLeftDash(y) + z
  {
    assert (y + z)[0] == y[0];
    if y[0] == '-' {
      assert (y + z)[1..] == y[1..] + z;
      TrimLeftDashAppend(y[1..], z);
    }
  }

  lemma FinishDropsLeadingDash(m: string)
    ensures Finish(['-'] + m) == Finish(m)
  {
    assert (['-'] + m)[1..] == m;
    if !(|m| > 0 && m[0] == '-') {
      var y := CollapseDashes(m);
      assert CollapseDashes(['-'] + m) == ['-'] + y;
      assert (['-'] + y)[1..] == y;
      assert TrimLeftDash(['-'] + y) == TrimLeftDash(y);
    }
  }

  lemma FinishDropsTrailingDash(m: string)
    ensures Finish(m + ['-']) == Finish(m)
  {
    CollapseAppendDash(m);
    if !(|m| > 0 && m[|m| - 1] == '-') {
      var y := CollapseDashes(m);
      if |y| == 0 {
        assert y + ['-'] == ['-'];
        assert ['-'][1..] == [];
      } else {
        TrimLeftDashAppend(y, ['-']);
        var w := TrimLeftDash(y);
        assert (w + ['-'])[..|w|] == w;
      }
    }
  }

  lemma {:induction false} FinishDropsDashPrefix(d: string, m: string)
    requires AllDashes(d)
    ensures Finish(d + m) == Finish(m)
  {
    if |d| > 0 {
      assert d + m == ['-'] + (d[1..] + m);
      FinishDropsLeadingDash(d[1..] + m);
      FinishDropsDashPrefix(d[1..], m);
    } else {
      assert d + m == m;
    }
  }

  lemma {:induction false} FinishDropsDashSuffix(m: string, d: string)
    requires AllDashes(d)
    ensures Finish(m + d) == Finish(m)
  {
    if |d| > 0 {
      var d' := d[..|d| - 1];
      assert m + d == (m + d') + ['-'];
      FinishDropsTrailingDash(m + d');
      FinishDropsDashSuffix(m, d');
    } else {
      assert m + d == m;
    }
  }

  /**
    Trimming white space first changes nothing: the slug is what the
    per-character stages and the run-collapsing stages make of the lowered
    input.
   */
  predicate AllSpace(s: string) {
    forall i :: 0 <= i < |s| ==> IsSpace(s[i])
  }

  lemma TrimLeftSplit(x: string) returns (pre: string)
    ensures x == pre + TrimLeftSpace(x) && AllSpace(pre)
  {
    var l := TrimLeftSpace(x);
    pre := x[..|x| - |l|];
    assert x == pre + l;
  }

  lemma TrimRightSplit(l: string) returns (suf: string)
    ensures l == TrimRightSpace(l) + suf && AllSpace(suf)
  {
    var t := TrimRightSpace(l);
    suf := l[|t|..];
    assert l == t + suf;
    forall i | 0 <= i < |suf|
      ensures IsSpace(suf[i])
    {
      assert suf[i] == l[|t| + i];
    }
  }

  /** `TrimSpace` removes white space only, from the two ends. */
  lemma TrimSpaceSplit(x: string) returns (pre: string, suf: string)
    ensures x == pre + TrimSpace(x) + suf
    ensures AllSpace(pre) && AllSpace(suf)
  {
    pre := TrimLeftSplit(x);
    suf := TrimRightSplit(TrimLeftSpace(x));
  }

  lemma CleanAround(pre: string, t: string, suf: string)
    requires AllDashes(Clean(pre)) && AllDashes(Clean(suf))
    ensures Finish(Clean(pre + t + suf)) == Finish(Clean(t))
  {
    CleanAppend(pre + t, suf);
    CleanAppend(pre, t);
    FinishDropsDashSuffix(Clean(pre) + Clean(t), Clean(suf));
    FinishDropsDashPrefix(Clean(pre), Clean(t));
  }

  /**
    Trimming white space first changes nothing: the slug is what the
    per-character stages and the run-collapsing stages make of the lowered
    input.
   */
  lemma SlugifyWithoutTrimSpace(s: string)
    ensures Slugify(s) == Finish(Clean(LowerAscii(s)))
  {
    var x := LowerAscii(s);
    var pre, suf := TrimSpaceSplit(x);
    CleanOfSpaces(pre);
    CleanOfSpaces(suf);
    CleanAround(pre, TrimSpace(x), suf);
  }

  lemma LowerAsciiAround(a: string, c: char, b: string)
    requires !('A' <= c <= 'Z')
    ensures LowerAscii(a + [c] + b) == LowerAscii(a) + [c] + LowerAscii(b)
  {
    var x := a + [c] + b;
    assert forall i :: 0 <= i < |a| ==> x[i] == a[i];
    assert forall i :: 0 <= i < |b| ==> x[|a| + 1 + i] == b[i];
  }

  lemma CleanAround3(a: string, c: char, b: string)
    ensures Clean(a + [c] + b) == Clean(a) + Clean([c]) + Clean(b)
  {
    CleanAppend(a + [c], b);
    CleanAppend(a, [c]);
  }

  lemma SwapSeparator(a: string, c: char, b: string)
    requires c == ' ' || c == '_'
    ensures Slugify(a + [c] + b) == Slugify(a + "-" + b)
  {
    SlugifyWithoutTrimSpace(a + [c] + b);
    SlugifyWithoutTrimSpace(a + "-" + b);
    LowerAsciiAround(a, c, b);
    LowerAsciiAround(a, '-', b);
    CleanAround3(LowerAscii(a), c, LowerAscii(b));
    CleanAround3(LowerAscii(a), '-', LowerAscii(b));
    assert Clean([c]) == "-" == Clean("-");
  }

  /** A space and an underscore separate words exactly as `-` does. */
  lemma SlugifySeparators(a: string, b: string)
    ensures Slugify(a + " " + b) == Slugify(a + "-" + b)
    ensures Slugify(a + "_" + b) == Slugify(a + "-" + b)
  {
    SwapSeparator(a, ' ', b);
    SwapSeparator(a, '_', b);
  }

  /** Upper-case ASCII letters are kept, as their lower-case form. */
  lemma SlugifyIgnoresCase(s: string)
    ensures Slugify(LowerAscii(s)) == Slugify(s)
  {
    assert LowerAscii(LowerAscii(s)) == LowerAscii(s);
  }
}
