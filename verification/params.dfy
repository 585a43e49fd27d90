/**
  Model of `ParseParams` (internal/command/params.go): a list of `key=value`
  tokens becomes a string map. Empty tokens are skipped; a token without `=`
  or with an empty key fails the whole call.
 */
module Params {
  import opened Wrappers

  type Params = map<string, string>

  /** Position of the first `=` in `s`, or `|s|` when there is none. */
  function FirstEq(s: string): (i: nat)
    ensures i <= |s|
    ensures forall j :: 0 <= j < i ==> s[j] != '='
    ensures i < |s| ==> s[i] == '='
  {
    if |s| == 0 then 0
    else if s[0] == '=' then 0
    else 1 + FirstEq(s[1..])
  }

  /** True when `s` contains a `=`. */
  predicate HasEq(s: string) {
    exists j :: 0 <= j < |s| && s[j] == '='
  }

  /** `strings.SplitN(s, "=", 2)`: the part before the first `=` and the rest. */
  function SplitFirst(s: string): (parts: seq<string>)
    ensures 1 <= |parts| <= 2
    ensures |parts| == 2 <==> HasEq(s)
    ensures |parts| == 1 ==> parts[0] == s
    ensures |parts| == 2 ==> s == parts[0] + "=" + parts[1] && '=' !in parts[0]
  {
    var i := FirstEq(s);
    if i == |s| then [s]
    else
      assert s == s[..i] + "=" + s[i + 1..];
      [s[..i], s[i + 1..]]
  }

  /** An item the parser accepts: it has a `=` and a non-empty key. */
  predicate WellFormed(item: string) {
    HasEq(item) && FirstEq(item) > 0
  }

  /** An item that stops the parse. */
  predicate Bad(item: string) {
    item != "" && !WellFormed(item)
  }

  /** Key of a well-formed item. */
  function KeyOf(item: string): string
    requires WellFormed(item)
  {
    item[..FirstEq(item)]
  }

  /** Value of a well-formed item: everything after the first `=`. */
  function ValueOf(item: string): string
    requires WellFormed(item)
  {
    item[FirstEq(item) + 1..]
  }

  function ErrorMessage(item: string): string {
    "invalid parameter: " + item
  }

  /**
    The parser, one item at a time in list order: the prefix is parsed first,
    so the first bad item in the list is the one reported and a later
    assignment to the same key overwrites an earlier one.
   */
  function ParseParams(items: seq<string>): (r: Result<Params, string>)
    ensures r.Success? ==> forall k :: k in r.value ==> k != ""
    ensures r.Failure? ==> exists j :: 0 <= j < |items| && Bad(items[j]) && r.error == ErrorMessage(items[j])
  {
    if |items| == 0 then Success(map[])
    else
      match ParseParams(items[..|items| - 1])
      case Failure(e) => Failure(e)
      case Success(m) =>
        var item := items[|items| - 1];
        if item == "" then Success(m)
        else
          var parts := SplitFirst(item);
          if |parts| != 2 || parts[0] == "" then Failure(ErrorMessage(item))
          else Success(m[parts[0] := parts[1]])
  }

  /** Index of the first bad item, or `|items|` when there is none. */
  function FirstBad(items: seq<string>): (k: nat)
    ensures k <= |items|
    ensures forall j :: 0 <= j < k ==> !Bad(items[j])
    ensures k < |items| ==> Bad(items[k])
  {
    if |items| == 0 then 0
    else if Bad(items[0]) then 0
    else 1 + FirstBad(items[1..])
  }

  lemma SplitAgrees(item: string)
    requires item != ""
    ensures var parts := SplitFirst(item);
            (|parts| != 2 || parts[0] == "") <==> Bad(item)
    ensures WellFormed(item) ==> SplitFirst(item) == [KeyOf(item), ValueOf(item)]
  {
  }

  /**
    The call succeeds exactly when no item is bad, and otherwise reports the
    first bad item; there is never a partial map.
   */
  lemma {:induction false} ParseParamsOutcome(items: seq<string>)
    ensures ParseParams(items).Success? <==> FirstBad(items) == |items|
    ensures ParseParams(items).Failure? ==>
              ParseParams(items).error == ErrorMessage(items[FirstBad(items)])
  {
    if |items| > 0 {
      var pre := items[..|items| - 1];
      var item := items[|items| - 1];
      assert items == pre + [item];
      ParseParamsOutcome(pre);
      FirstBadPrefix(pre, item);
      if item != "" { SplitAgrees(item); }
    }
  }

  /** Success means no item is bad; failure means some item is. */
  lemma ParseParamsSucceedsIff(items: seq<string>)
    ensures ParseParams(items).Success? <==> forall j :: 0 <= j < |items| ==> !Bad(items[j])
  {
    ParseParamsOutcome(items);
  }

  /** An empty item anywhere in the list is skipped: removing it changes nothing. */
  lemma {:induction false} ParseParamsSkipsEmpty(pre: seq<string>, post: seq<string>)
    ensures ParseParams(pre + [""] + post) == ParseParams(pre + post)
  {
    if |post| == 0 {
      assert pre + [""] + post == pre + [""];
      assert (pre + [""])[..|pre|] == pre;
      assert pre + post == pre;
    } else {
      var init := post[..|post| - 1];
      var last := post[|post| - 1];
      ParseParamsSkipsEmpty(pre, init);
      assert pre + [""] + post == (pre + [""] + init) + [last];
      assert pre + post == (pre + init) + [last];
      assert ((pre + [""] + init) + [last])[..|pre + [""] + init|] == pre + [""] + init;
      assert ((pre + init) + [last])[..|pre + init|] == pre + init;
    }
  }

  lemma {:induction false} FirstBadPrefix(pre: seq<string>, item: string)
    ensures FirstBad(pre) < |pre| ==> FirstBad(pre + [item]) == FirstBad(pre)
    ensures FirstBad(pre) == |pre| ==> FirstBad(pre + [item]) == |pre| + (if Bad(item) then 0 else 1)
  {
    if |pre| > 0 {
      assert (pre + [item])[0] == pre[0];
      assert (pre + [item])[1..] == pre[1..] + [item];
      FirstBadPrefix(pre[1..], item);
    }
  }

  /** Keys of a successful parse are exactly the keys of its non-empty items. */
  lemma {:induction false} ParseParamsKeys(items: seq<string>)
    requires ParseParams(items).Success?
    ensures forall j :: 0 <= j < |items| && items[j] != "" ==>
              WellFormed(items[j]) && KeyOf(items[j]) in ParseParams(items).value
    ensures forall k :: k in ParseParams(items).value ==>
              k != "" && exists j :: 0 <= j < |items| && items[j] != "" && WellFormed(items[j]) && KeyOf(items[j]) == k
  {
    if |items| > 0 {
      var pre := items[..|items| - 1];
      var item := items[|items| - 1];
      ParseParamsKeys(pre);
      if item != "" { SplitAgrees(item); }
      assert forall j :: 0 <= j < |pre| ==> pre[j] == items[j];
    }
  }

  /** True when no item after position `i` sets key `k`. */
  predicate NoLaterKey(items: seq<string>, i: nat, k: string)
    requires i <= |items|
  {
    forall j :: i < j < |items| && WellFormed(items[j]) ==> KeyOf(items[j]) != k
  }

  /** The value stored for a key comes from the last item that sets it. */
  lemma {:induction false} ParseParamsLastWins(items: seq<string>, i: nat)
    requires ParseParams(items).Success?
    requires i < |items| && WellFormed(items[i])
    requires NoLaterKey(items, i, KeyOf(items[i]))
    ensures KeyOf(items[i]) in ParseParams(items).value
    ensures ParseParams(items).value[KeyOf(items[i])] == ValueOf(items[i])
  {
    var pre := items[..|items| - 1];
    var item := items[|items| - 1];
    SplitAgrees(items[i]);
    if item != "" { SplitAgrees(item); }
    if i < |items| - 1 {
      assert forall j :: 0 <= j < |pre| ==> pre[j] == items[j];
      ParseParamsLastWins(pre, i);
    }
  }

  /** The example from the package's test. */
  lemma ParseParamsExample()
    ensures ParseParams(["a=1", "b=two"]) == Success(map["a" := "1", "b" := "two"])
  {
    assert "a=1"[1..] == "=1";
    assert FirstEq("a=1") == 1;
    assert "a=1"[..1] == "a" && "a=1"[2..] == "1";
    assert SplitFirst("a=1") == ["a", "1"];
    assert "b=two"[1..] == "=two";
    assert FirstEq("b=two") == 1;
    assert "b=two"[..1] == "b" && "b=two"[2..] == "two";
    assert SplitFirst("b=two") == ["b", "two"];
    assert ["a=1", "b=two"][..1] == ["a=1"];
    assert ["a=1"][..0] == [];
    assert ParseParams(["a=1"]) == Success(map["a" := "1"]);
  }

  /** A token without `=` is rejected, as in the package's test. */
  lemma ParseParamsRejectsBare()
    ensures ParseParams(["bad"]) == Failure("invalid parameter: bad")
  {
    assert ["bad"][..0] == [];
    assert "bad"[1..] == "ad" && "ad"[1..] == "d" && "d"[1..] == "";
    assert FirstEq("bad") == 3;
    assert SplitFirst("bad") == ["bad"];
    assert ErrorMessage("bad") == "invalid parameter: bad";
  }

  /** The value may itself contain `=`: only the first one splits. */
  lemma ParseParamsValueKeepsEq()
    ensures ParseParams(["k=a=b"]) == Success(map["k" := "a=b"])
  {
    assert ["k=a=b"][..0] == [];
    assert "k=a=b"[1..] == "=a=b";
    assert FirstEq("k=a=b") == 1;
    assert "k=a=b"[..1] == "k" && "k=a=b"[2..] == "a=b";
    assert SplitFirst("k=a=b") == ["k", "a=b"];
  }
}
