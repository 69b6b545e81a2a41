/** aFrame's browser detection (`AF.browser`) and the animation strategy it
    selects (`AF.animation`, `my.run`).  The user agent is a parameter: where
    it comes from is outside the model. */
module Browser {

  /** One row of the table: a substring to look for and the code it gives. */
  datatype Entry = Entry(subString: string, code: string)

  /** The table, scanned top to bottom. */
  const Browsers: seq<Entry> := [
    Entry("iPod", "mobile"),
    Entry("iPhone", "mobile"),
    Entry("iPad", "mobile"),
    Entry("Apple", "webkit"),
    Entry("Chrome", "webkit"),
    Entry("Gecko", "mozilla")
  ]

  /** `sub` occurs in `s` at position `i`. */
  predicate OccursAt(s: string, sub: string, i: int) {
    0 <= i && i + |sub| <= |s| && s[i..i + |sub|] == sub
  }

  /** `s.indexOf(sub, from)` for a start position inside the string (or just
      past its end): the first position at or after `from` where `sub`
      occurs, or -1 if there is none. */
  function IndexOfFrom(s: string, sub: string, from: nat): (r: int)
    requires from <= |s|
    ensures r == -1 || (from <= r && OccursAt(s, sub, r))
    ensures forall k :: from <= k && (r == -1 || k < r) ==> !OccursAt(s, sub, k)
    decreases |s| - from
  {
    if from + |sub| > |s| then -1
    else if s[from..from + |sub|] == sub then from
    else IndexOfFrom(s, sub, from + 1)
  }

  /** `s.indexOf(sub)`. */
  function IndexOf(s: string, sub: string): (r: int)
    ensures r == -1 <==> forall k :: !OccursAt(s, sub, k)
    ensures r != -1 ==> OccursAt(s, sub, r) && forall k :: 0 <= k < r ==> !OccursAt(s, sub, k)
  {
    IndexOfFrom(s, sub, 0)
  }

  /** Whether `sub` occurs anywhere in `s`. */
  ghost predicate Contains(s: string, sub: string) {
    exists k :: OccursAt(s, sub, k)
  }

  /** The position in `table` of the first entry whose substring occurs in
      `ua` (`|table|` if none does). */
  function FirstMatch(table: seq<Entry>, ua: string): (i: nat)
    ensures i <= |table|
    ensures forall j :: 0 <= j < i ==> !Contains(ua, table[j].subString)
    ensures i < |table| ==> Contains(ua, table[i].subString)
    decreases |table|
  {
    if table == [] then 0
    else if IndexOf(ua, table[0].subString) != -1 then 0
    else 1 + FirstMatch(table[1..], ua)
  }

  /** The code `AF.browser` settles on for user agent `ua`. */
  function Code(ua: string): string {
    var i := FirstMatch(Browsers, ua);
    if i < |Browsers| then Browsers[i].code else "default"
  }

  /** The scan of `AF.browser`: the code of the first entry whose substring
      occurs in `ua`, or `'default'` when none does. */
  method DetectBrowser(ua: string) returns (code: string)
    ensures code == Code(ua)
    ensures code in {"mobile", "webkit", "mozilla", "default"}
    ensures code == "default" <==> forall j :: 0 <= j < |Browsers| ==> !Contains(ua, Browsers[j].subString)
  {
    var i := 0;
    while i < |Browsers|
      invariant 0 <= i <= |Browsers|
      invariant forall j :: 0 <= j < i ==> !Contains(ua, Browsers[j].subString)
      invariant FirstMatch(Browsers, ua) >= i
    {
      var item := Browsers[i];
      var hasItem := IndexOf(ua, item.subString);
      if hasItem != -1 {
        FirstMatchIs(Browsers, ua, i);
        return item.code;
      }
      i := i + 1;
    }
    return "default";
  }

  /** The first match is the position at which the scan stops. */
  lemma {:induction false} FirstMatchIs(table: seq<Entry>, ua: string, i: nat)
    requires i < |table| && Contains(ua, table[i].subString)
    requires forall j :: 0 <= j < i ==> !Contains(ua, table[j].subString)
    ensures FirstMatch(table, ua) == i
    decreases i
  {
    if i > 0 {
      FirstMatchIs(table[1..], ua, i - 1);
    }
  }

  /** Order matters: a user agent naming an iPad is `mobile` even when it also
      says `Apple` or `Chrome`; one naming Chrome but no Apple device is
      `webkit` even when it also says `Gecko`. */
  lemma CodeExamples(ua: string)
    ensures Contains(ua, "iPad") ==> Code(ua) == "mobile"
    ensures (Contains(ua, "Chrome") && !Contains(ua, "iPod") && !Contains(ua, "iPhone") &&
             !Contains(ua, "iPad")) ==> Code(ua) == "webkit"
  {
    if Contains(ua, "iPad") {
      assert Browsers[2].subString == "iPad";
      assert FirstMatch(Browsers, ua) <= 2;
    }
    if Contains(ua, "Chrome") && !Contains(ua, "iPod") && !Contains(ua, "iPhone") && !Contains(ua, "iPad") {
      assert Browsers[4].subString == "Chrome";
      assert FirstMatch(Browsers, ua) <= 4;
      assert FirstMatch(Browsers, ua) >= 3;
    }
  }

  /** The three animation strategies: a 3D transform, a 2D transform, or
      plain `left`/`top` positioning. */
  datatype Strategy = WebkitStrategy | MozillaStrategy | DefaultStrategy

  /** The `switch` of `AF.animation`'s `my.run`. */
  function SelectStrategy(code: string): (s: Strategy)
    ensures s == WebkitStrategy <==> code == "webkit" || code == "mobile"
    ensures s == MozillaStrategy <==> code == "mozilla"
  {
    match code
    case "webkit" => WebkitStrategy
    case "mozilla" => MozillaStrategy
    case "mobile" => WebkitStrategy
    case _ => DefaultStrategy
  }

  /** The strategy in terms of the user agent: WebKit when an Apple device,
      `Apple` or `Chrome` is named, Mozilla when only `Gecko` is, and the
      default otherwise. */
  lemma StrategyForUserAgent(ua: string)
    ensures var webkitish := exists j :: 0 <= j < 5 && Contains(ua, Browsers[j].subString);
            (SelectStrategy(Code(ua)) == WebkitStrategy <==> webkitish) &&
            (SelectStrategy(Code(ua)) == MozillaStrategy <==> !webkitish && Contains(ua, "Gecko")) &&
            (SelectStrategy(Code(ua)) == DefaultStrategy <==> !webkitish && !Contains(ua, "Gecko"))
  {
    var i := FirstMatch(Browsers, ua);
    assert Browsers[5].subString == "Gecko";
    if i < 5 {
      assert Browsers[i].code in {"mobile", "webkit"};
    }
  }
}
