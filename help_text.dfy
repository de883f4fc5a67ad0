/**
 * The help text of the `cmd` positional when the handler uses the short
 * subcommand help: a newline, then one line per command in sorted order,
 * each the command name left-justified to two more than the longest name,
 * followed by the command's help and a newline.
 */
module HelpText {
  import opened Values

  /** The generic help of `cmd` when the short subcommand help is off. */
  const PlainHelp: string := "the subcommand to run"

  /** The help of `cargs` when the short subcommand help is off. */
  const CargsHelp: string := "arguments for the subcommand"

  // ---------------------------------------------------------------------
  // Python's string order and `sorted`
  // ---------------------------------------------------------------------

  /** Python's `<` on strings: code point by code point, a proper prefix first. */
  predicate Below(a: string, b: string)
    decreases |a|
  {
    if a == [] then b != []
    else if b == [] then false
    else if a[0] != b[0] then a[0] < b[0]
    else Below(a[1..], b[1..])
  }

  lemma {:induction false} BelowIrreflexive(a: string)
    ensures !Below(a, a)
    decreases |a|
  {
    if a != [] { BelowIrreflexive(a[1..]); }
  }

  lemma {:induction false} BelowTransitive(a: string, b: string, c: string)
    requires Below(a, b) && Below(b, c)
    ensures Below(a, c)
    decreases |a|
  {
    if a != [] && b != [] && c != [] && a[0] == b[0] == c[0] {
      BelowTransitive(a[1..], b[1..], c[1..]);
    }
  }

  lemma {:induction false} BelowTotal(a: string, b: string)
    requires a != b
    ensures Below(a, b) || Below(b, a)
    decreases |a|
  {
    if a != [] && b != [] && a[0] == b[0] {
      assert a == [a[0]] + a[1..] && b == [b[0]] + b[1..];
      BelowTotal(a[1..], b[1..]);
    }
  }

  lemma BelowAsymmetric(a: string, b: string)
    requires Below(a, b)
    ensures !Below(b, a)
  {
    if Below(b, a) {
      BelowTransitive(a, b, a);
      BelowIrreflexive(a);
    }
  }

  /** `m` comes before every other element of `keys`. */
  predicate IsMinimum(m: string, keys: set<string>) {
    forall y :: y in keys && y != m ==> Below(m, y)
  }

  lemma {:induction false} MinimumExists(keys: set<string>)
    requires keys != {}
    ensures exists m :: m in keys && IsMinimum(m, keys)
    decreases |keys|
  {
    var x :| x in keys;
    var rest := keys - {x};
    if rest == {} {
      assert keys == {x};
      assert IsMinimum(x, keys);
    } else {
      MinimumExists(rest);
      var m :| m in rest && IsMinimum(m, rest);
      if Below(x, m) {
        forall y | y in keys && y != x ensures Below(x, y) {
          if y != m { BelowTransitive(x, m, y); }
        }
        assert IsMinimum(x, keys);
      } else {
        BelowTotal(x, m);
        assert IsMinimum(m, keys);
      }
    }
  }

  lemma MinimumUnique(keys: set<string>)
    ensures forall m, n :: m in keys && IsMinimum(m, keys) && n in keys && IsMinimum(n, keys) ==> m == n
  {
    forall m, n | m in keys && IsMinimum(m, keys) && n in keys && IsMinimum(n, keys) ensures m == n {
      if m != n { BelowAsymmetric(m, n); }
    }
  }

  /** Strictly increasing, hence without repeats. */
  predicate StrictlySorted(s: seq<string>) {
    forall i, j :: 0 <= i < j < |s| ==> Below(s[i], s[j])
  }

  /** `s` lists the elements of `keys`, each once, in increasing order. */
  ghost predicate SortedEnumeration(s: seq<string>, keys: set<string>) {
    StrictlySorted(s) && forall x :: x in s <==> x in keys
  }

  /** Python's `sorted` applied to a set of strings. */
  function Sorted(keys: set<string>): (s: seq<string>)
    ensures SortedEnumeration(s, keys)
    ensures |s| == |keys|
    decreases |keys|
  {
    if keys == {} then []
    else
      MinimumExists(keys);
      MinimumUnique(keys);
      var m :| m in keys && IsMinimum(m, keys);
      var rest := Sorted(keys - {m});
      assert keys == (keys - {m}) + {m};
      [m] + rest
  }

  /** The first element of a sorted listing is the set's minimum. */
  lemma FirstIsMinimum(s: seq<string>, keys: set<string>)
    requires SortedEnumeration(s, keys) && s != []
    ensures s[0] in keys && IsMinimum(s[0], keys)
  {
    forall y | y in keys && y != s[0] ensures Below(s[0], y) {
      var j :| 0 <= j < |s| && s[j] == y;
    }
  }

  /** Without its first element, a sorted listing lists the rest of the set. */
  lemma TailEnumeration(s: seq<string>, keys: set<string>)
    requires SortedEnumeration(s, keys) && s != []
    ensures SortedEnumeration(s[1..], keys - {s[0]})
  {
    forall i | 0 < i < |s| ensures s[i] != s[0] {
      BelowIrreflexive(s[0]);
    }
    forall x ensures x in s[1..] <==> x in keys - {s[0]} {
      if x in keys - {s[0]} {
        var j :| 0 <= j < |s| && s[j] == x;
        assert s[1..][j - 1] == x;
      }
    }
  }

  /** A sorted listing of a set is unique: it is the one `Sorted` gives. */
  lemma {:induction false} SortedEnumerationUnique(s: seq<string>, keys: set<string>)
    requires SortedEnumeration(s, keys)
    ensures s == Sorted(keys)
    decreases |s|
  {
    var t := Sorted(keys);
    if s == [] {
      assert keys == {};
    } else {
      assert s[0] in keys;
      assert t != [];
      FirstIsMinimum(s, keys);
      FirstIsMinimum(t, keys);
      MinimumUnique(keys);
      TailEnumeration(s, keys);
      TailEnumeration(t, keys);
      SortedEnumerationUnique(s[1..], keys - {s[0]});
      SortedEnumerationUnique(t[1..], keys - {s[0]});
      assert s == [s[0]] + s[1..] && t == [t[0]] + t[1..];
    }
  }

  // ---------------------------------------------------------------------
  // Column width and padding
  // ---------------------------------------------------------------------

  /** The length of the longest name (Python's `max` over the name lengths). */
  function MaxLen(names: seq<string>): (m: nat)
    ensures forall i :: 0 <= i < |names| ==> |names[i]| <= m
    ensures names != [] ==> exists i :: 0 <= i < |names| && |names[i]| == m
    ensures names == [] ==> m == 0
  {
    if names == [] then 0
    else
      var rest := MaxLen(names[1..]);
      assert forall i :: 1 <= i < |names| ==> names[i] == names[1..][i - 1];
      if |names[0]| >= rest then |names[0]| else rest
  }

  function Spaces(n: nat): (r: string)
    ensures |r| == n && forall i :: 0 <= i < n ==> r[i] == ' '
  {
    seq(n, _ => ' ')
  }

  /** Python's `str.ljust`: the text, padded on the right with spaces up to `width`. */
  function LJust(s: string, width: nat): (r: string)
    ensures |r| == if |s| < width then width else |s|
    ensures r[..|s|] == s
    ensures forall i :: |s| <= i < |r| ==> r[i] == ' '
  {
    if |s| < width then s + Spaces(width - |s|) else s
  }

  // ---------------------------------------------------------------------
  // The help text
  // ---------------------------------------------------------------------

  /** One line of the subcommand help. */
  function HelpLine(name: string, help: string, width: nat): string {
    LJust(name, width) + help + "\n"
  }

  /** Every name has a help entry, and that entry is a string. */
  predicate AllText(names: seq<string>, helps: map<string, Obj>) {
    forall i :: 0 <= i < |names| ==> names[i] in helps && helps[names[i]].Text?
  }

  /** Every listed name is one of the keys. */
  lemma SortedMember(keys: set<string>, i: int)
    requires 0 <= i < |Sorted(keys)|
    ensures Sorted(keys)[i] in keys
  {
    assert Sorted(keys)[i] in Sorted(keys);
  }

  /** Every command has a help entry, and that entry is a string. */
  predicate HelpsAreText(commands: set<string>, helps: map<string, Obj>) {
    forall n :: n in commands ==> n in helps && helps[n].Text?
  }

  /** Rendering the sorted names needs exactly that every command's help is a string. */
  lemma SortedAllText(commands: set<string>, helps: map<string, Obj>)
    ensures AllText(Sorted(commands), helps) <==> HelpsAreText(commands, helps)
  {
    var s := Sorted(commands);
    if AllText(s, helps) {
      forall n | n in commands ensures n in helps && helps[n].Text? {
        assert n in s;
        var i :| 0 <= i < |s| && s[i] == n;
      }
    }
  }

  /** The lines of the subcommand help, one per name, in the order given. */
  function HelpBody(names: seq<string>, helps: map<string, Obj>, width: nat): string
    requires AllText(names, helps)
  {
    if names == [] then ""
    else
      var last := names[|names| - 1];
      HelpBody(names[..|names| - 1], helps, width) + HelpLine(last, helps[last].s, width)
  }

  /** The error raised at the first name whose help cannot be appended. */
  function HelpError(name: string, helps: map<string, Obj>): Error {
    if name !in helps then HelpMissing(name) else HelpNotAString(name)
  }

  /**
   * The loop that accumulates the subcommand help. It fails at the first
   * name that has no help entry (KeyError) or whose help is not a string
   * (TypeError from the concatenation).
   */
  method RenderSubcommandHelp(names: seq<string>, helps: map<string, Obj>, width: nat) returns (r: Result<string>)
    ensures r.Success? <==> AllText(names, helps)
    ensures r.Success? ==> r.value == "\n" + HelpBody(names, helps, width)
    ensures r.Failure? ==>
      exists i :: 0 <= i < |names| && AllText(names[..i], helps) &&
        !(names[i] in helps && helps[names[i]].Text?) && r.error == HelpError(names[i], helps)
  {
    var text := "\n";
    var i := 0;
    while i < |names|
      invariant 0 <= i <= |names|
      invariant AllText(names[..i], helps)
      invariant text == "\n" + HelpBody(names[..i], helps, width)
    {
      var name := names[i];
      if name !in helps || !helps[name].Text? {
        r := Failure(HelpError(name, helps));
        assert !AllText(names, helps) by { assert !(names[i] in helps && helps[names[i]].Text?); }
        return;
      }
      ghost var prefix := names[..i + 1];
      assert prefix[..i] == names[..i] && prefix[i] == name;
      assert AllText(prefix, helps);
      assert HelpBody(prefix, helps, width) == HelpBody(names[..i], helps, width) + HelpLine(name, helps[name].s, width);
      text := text + HelpLine(name, helps[name].s, width);
      i := i + 1;
    }
    assert names[..i] == names;
    r := Success(text);
  }

  /** The number of newlines in a text. */
  function Newlines(s: string): nat {
    if s == [] then 0 else Newlines(s[..|s| - 1]) + (if s[|s| - 1] == '\n' then 1 else 0)
  }

  lemma {:induction false} NewlinesAppend(a: string, b: string)
    ensures Newlines(a + b) == Newlines(a) + Newlines(b)
    decreases |b|
  {
    if b != [] {
      assert (a + b)[..|a + b| - 1] == a + b[..|b| - 1];
      assert (a + b)[|a + b| - 1] == b[|b| - 1];
      NewlinesAppend(a, b[..|b| - 1]);
    } else {
      assert a + b == a;
    }
  }

  lemma {:induction false} NoNewlines(s: string)
    requires '\n' !in s
    ensures Newlines(s) == 0
    decreases |s|
  {
    if s != [] {
      assert s[..|s| - 1] + [s[|s| - 1]] == s;
      NoNewlines(s[..|s| - 1]);
    }
  }

  /**
   * When no name and no help contains a newline, the help has exactly one
   * line per name: it holds as many newlines as there are names.
   */
  lemma {:induction false} OneLinePerCommand(names: seq<string>, helps: map<string, Obj>, width: nat)
    requires AllText(names, helps)
    requires forall i :: 0 <= i < |names| ==> '\n' !in names[i] && '\n' !in helps[names[i]].s
    ensures Newlines(HelpBody(names, helps, width)) == |names|
    decreases |names|
  {
    if names != [] {
      var init := names[..|names| - 1];
      var last := names[|names| - 1];
      assert forall i :: 0 <= i < |init| ==> init[i] == names[i];
      OneLinePerCommand(init, helps, width);
      var padded := LJust(last, width);
      assert '\n' !in padded by {
        forall i | 0 <= i < |padded| ensures padded[i] != '\n' {
          if i < |last| { assert padded[i] == padded[..|last|][i] == last[i]; }
        }
      }
      NoNewlines(padded);
      NoNewlines(helps[last].s);
      NewlinesAppend(padded, helps[last].s);
      NewlinesAppend(padded + helps[last].s, "\n");
      NewlinesAppend(HelpBody(init, helps, width), HelpLine(last, helps[last].s, width));
    }
  }

  /**
   * With the width the handler uses (two more than the longest name) every
   * line starts with its name followed by at least two spaces, and the help
   * starts in the same column on every line.
   */
  lemma NameColumnAligned(names: seq<string>, name: string, help: string)
    requires name in names
    ensures var line := HelpLine(name, help, MaxLen(names) + 2);
      && line[..|name|] == name
      && (forall k :: |name| <= k < MaxLen(names) + 2 ==> line[k] == ' ')
      && line[MaxLen(names) + 2..] == help + "\n"
  {
    var w := MaxLen(names) + 2;
    var line := HelpLine(name, help, w);
    assert |LJust(name, w)| == w;
    assert line[..|name|] == LJust(name, w)[..|name|];
  }
}
