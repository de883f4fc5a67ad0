/**
 * How `set_logging_argument` derives the attribute name it later reads the
 * chosen level from: every option spelling must start with a dash, and the
 * longest spelling with all its dashes removed is kept.
 */
module Naming {

  /** An option spelling, as opposed to a positional argument's name. */
  predicate IsOptionName(name: string) {
    |name| > 0 && name[0] == '-'
  }

  /** The name with every '-' removed (`str.replace('-', '')`). */
  function StripDashes(name: string): (r: string)
    ensures |r| <= |name|
    ensures '-' !in r
  {
    if name == [] then []
    else
      var init, last := name[..|name| - 1], name[|name| - 1];
      if last == '-' then StripDashes(init)
      else StripDashes(init) + [last]
  }

  /**
   * Removing dashes keeps every other character as often as it occurs in
   * the name, so the result is shorter by exactly the number of dashes.
   */
  lemma {:induction false} StripDashesCounts(name: string)
    ensures multiset(StripDashes(name)) == multiset(name)['-' := 0]
    ensures |StripDashes(name)| == |name| - multiset(name)['-']
  {
    if name != [] {
      var init, last := name[..|name| - 1], name[|name| - 1];
      assert name == init + [last];
      StripDashesCounts(init);
    }
  }

  /** Removing dashes works piecewise, so the kept characters stay in their order. */
  lemma {:induction false} StripDashesAppend(a: string, b: string)
    ensures StripDashes(a + b) == StripDashes(a) + StripDashes(b)
    decreases |b|
  {
    if b != [] {
      var init, last := b[..|b| - 1], b[|b| - 1];
      assert (a + b)[..|a + b| - 1] == a + init;
      assert (a + b)[|a + b| - 1] == last;
      StripDashesAppend(a, init);
    } else {
      assert a + b == a;
    }
  }

  /**
   * The running result of the scan over the spellings: it starts empty and
   * is replaced by a stripped spelling only when that is strictly longer.
   */
  function Longest(names: seq<string>): string
  {
    if names == [] then ""
    else
      var sofar := Longest(names[..|names| - 1]);
      var stripped := StripDashes(names[|names| - 1]);
      if |stripped| > |sofar| then stripped else sofar
  }

  /**
   * The derived name is a longest stripped spelling, and among equally long
   * ones the earliest: every spelling before it is strictly shorter.
   */
  lemma {:induction false} LongestIsEarliestMaximum(names: seq<string>)
    ensures forall j :: 0 <= j < |names| ==> |StripDashes(names[j])| <= |Longest(names)|
    ensures names == [] ==> Longest(names) == ""
    ensures names != [] ==>
      exists k :: 0 <= k < |names| && Longest(names) == StripDashes(names[k]) &&
        forall j :: 0 <= j < k ==> |StripDashes(names[j])| < |Longest(names)|
  {
    if names != [] {
      var init := names[..|names| - 1];
      var last := |names| - 1;
      LongestIsEarliestMaximum(init);
      assert forall j :: 0 <= j < |init| ==> init[j] == names[j];
      if |StripDashes(names[last])| > |Longest(init)| {
        assert Longest(names) == StripDashes(names[last]);
      } else if init == [] {
        assert Longest(names) == "" == Longest(init);
        assert |StripDashes(names[0])| == 0;
        assert StripDashes(names[0]) == "";
      } else {
        var k :| 0 <= k < |init| && Longest(init) == StripDashes(init[k]) &&
          forall j :: 0 <= j < k ==> |StripDashes(init[j])| < |Longest(init)|;
        assert Longest(names) == StripDashes(names[k]);
      }
    }
  }
}
