/**
 * What `set_subcommands` does with the items of the dictionary it is given,
 * in the dictionary's iteration order: each key must be a string and each
 * value a callable handler or a tuple whose first element is callable and
 * whose second element is the help. The first offending item raises, and
 * the tables keep whatever the items before it (and, for a one-element
 * tuple, the item itself) had already put there.
 */
module SubcommandTable {
  import opened Values

  /** The two tables being filled and, once an item raised, the exception. */
  datatype TableState = TableState(lookup: map<string, Handler>, help: map<string, Obj>, error: Option<Error>)

  /** A value `set_subcommands` accepts: a callable, or a tuple of a callable and a help. */
  predicate Accepted(value: Obj) {
    value.Fn? || (value.Tuple? && |value.items| >= 2 && value.items[0].Fn?)
  }

  /** An item that `set_subcommands` accepts. */
  predicate GoodEntry(entry: (Key, Obj)) {
    entry.0.StrKey? && Accepted(entry.1)
  }

  /** The handler an accepted item contributes. */
  function HandlerOf(value: Obj): Handler
    requires Accepted(value)
  {
    if value.Fn? then value.fxn else value.items[0].fxn
  }

  /** The help an accepted item contributes: the empty string for a bare handler, the tuple's second element otherwise. */
  function HelpOf(value: Obj): Obj
    requires Accepted(value)
  {
    if value.Fn? then Text("") else value.items[1]
  }

  /** The exception an offending item raises. */
  function EntryError(entry: (Key, Obj)): Error
    requires !GoodEntry(entry)
  {
    match entry.0
    case OtherKey(_) => KeyNotAString(entry.0)
    case StrKey(name) =>
      if entry.1.Tuple? && (|entry.1.items| == 0 || entry.1.items[0].Fn?) then TupleTooShort(name)
      else NotCallable(name)
  }

  /** An item is a one-element tuple holding a callable: its handler is stored before the help lookup raises. */
  predicate StoresBeforeRaising(entry: (Key, Obj)) {
    entry.0.StrKey? && entry.1.Tuple? && |entry.1.items| == 1 && entry.1.items[0].Fn?
  }

  /**
   * The state after `entry` raised, given the tables built before it. The
   * help table is left as it was, and so is the lookup table, except that a
   * one-element tuple of a callable has stored its handler. A
   * non-string key, or a value that is not callable, raises TypeError; a
   * tuple too short for its handler or its help raises IndexError, and a
   * one-element tuple of a callable has already stored its handler by then.
   */
  function Raise(before: TableState, entry: (Key, Obj)): (r: TableState)
    requires !GoodEntry(entry)
    ensures r.error.Some? && r.help.Keys == before.help.Keys
    ensures r.help == before.help
    ensures !StoresBeforeRaising(entry) ==> r.lookup == before.lookup
    ensures before.lookup.Keys <= r.lookup.Keys
    ensures entry.0.OtherKey? ==> r.lookup.Keys == before.lookup.Keys
    ensures entry.0.StrKey? ==> r.lookup.Keys <= before.lookup.Keys + {entry.0.s}
    ensures forall n :: n in before.lookup && !(entry.0.StrKey? && n == entry.0.s) ==> r.lookup[n] == before.lookup[n]
    ensures entry.0.OtherKey? ==> r.error == Some(KeyNotAString(entry.0))
    ensures entry.0.StrKey? && !entry.1.Tuple? ==> r.error == Some(NotCallable(entry.0.s))
    ensures entry.0.StrKey? && entry.1.Tuple? && |entry.1.items| == 0 ==> r.error == Some(TupleTooShort(entry.0.s))
    ensures entry.0.StrKey? && entry.1.Tuple? && |entry.1.items| > 0 && !entry.1.items[0].Fn? ==>
      r.error == Some(NotCallable(entry.0.s))
    ensures entry.0.StrKey? && entry.1.Tuple? && |entry.1.items| > 0 && entry.1.items[0].Fn? ==>
      && r.error == Some(TupleTooShort(entry.0.s))
      && entry.0.s in r.lookup && r.lookup[entry.0.s] == entry.1.items[0].fxn
      && (entry.0.s in r.help <==> entry.0.s in before.help)
  {
    var lookup := if StoresBeforeRaising(entry) then before.lookup[entry.0.s := entry.1.items[0].fxn] else before.lookup;
    TableState(lookup, before.help, Some(EntryError(entry)))
  }

  /** Processing the items, in order, into the tables `lookup` and `help`. */
  function Load(items: seq<(Key, Obj)>, lookup: map<string, Handler>, help: map<string, Obj>): TableState
    decreases |items|
  {
    if items == [] then TableState(lookup, help, None)
    else
      var entry := items[0];
      if !GoodEntry(entry) then Raise(TableState(lookup, help, None), entry)
      else
        Load(items[1..], lookup[entry.0.s := HandlerOf(entry.1)], help[entry.0.s := HelpOf(entry.1)])
  }

  /** The string keys among the items. */
  function Names(items: seq<(Key, Obj)>): set<string> {
    set i | 0 <= i < |items| && items[i].0.StrKey? :: items[i].0.s
  }

  /** No key occurs twice, as in any dictionary. */
  predicate DistinctKeys(items: seq<(Key, Obj)>) {
    forall i, j :: 0 <= i < j < |items| ==> items[i].0 != items[j].0
  }

  /** Loading raises exactly when some item is not accepted. */
  lemma {:induction false} LoadSucceedsIff(items: seq<(Key, Obj)>, lookup: map<string, Handler>, help: map<string, Obj>)
    ensures Load(items, lookup, help).error.None? <==> forall i :: 0 <= i < |items| ==> GoodEntry(items[i])
    decreases |items|
  {
    if items != [] && GoodEntry(items[0]) {
      var entry := items[0];
      LoadSucceedsIff(items[1..], lookup[entry.0.s := HandlerOf(entry.1)], help[entry.0.s := HelpOf(entry.1)]);
      assert forall i :: 1 <= i < |items| ==> items[i] == items[1..][i - 1];
    }
  }

  /**
   * When every item is accepted, both tables gain exactly the items' keys;
   * each key maps to its item's handler and help, and every other key keeps
   * what it had.
   */
  lemma {:induction false} LoadOnSuccess(items: seq<(Key, Obj)>, lookup: map<string, Handler>, help: map<string, Obj>)
    requires forall i :: 0 <= i < |items| ==> GoodEntry(items[i])
    requires DistinctKeys(items)
    ensures var st := Load(items, lookup, help);
      && st.error.None?
      && st.lookup.Keys == lookup.Keys + Names(items)
      && st.help.Keys == help.Keys + Names(items)
      && (forall i :: 0 <= i < |items| ==>
            GoodEntry(items[i]) &&
            st.lookup[items[i].0.s] == HandlerOf(items[i].1) && st.help[items[i].0.s] == HelpOf(items[i].1))
      && (forall n :: n in lookup && n !in Names(items) ==> st.lookup[n] == lookup[n])
      && (forall n :: n in help && n !in Names(items) ==> st.help[n] == help[n])
    decreases |items|
  {
    if items != [] {
      var entry := items[0];
      var name := entry.0.s;
      var lookup', help' := lookup[name := HandlerOf(entry.1)], help[name := HelpOf(entry.1)];
      var rest := items[1..];
      assert forall i :: 1 <= i < |items| ==> items[i] == rest[i - 1];
      LoadOnSuccess(rest, lookup', help');
      assert Names(items) == {name} + Names(rest) by {
        forall n | n in Names(items) ensures n in {name} + Names(rest) {
          var i :| 0 <= i < |items| && items[i].0.StrKey? && items[i].0.s == n;
          if i > 0 { assert rest[i - 1].0.s == n; }
        }
      }
      assert name !in Names(rest) by {
        forall i | 0 <= i < |rest| ensures rest[i].0 != entry.0 {
          assert rest[i] == items[i + 1];
        }
      }
    }
  }

  /**
   * Loading raises at item `i`: the items before it are accepted, and the
   * result is what item `i` makes of the tables the items before it built.
   */
  predicate FailsAt(items: seq<(Key, Obj)>, lookup: map<string, Handler>, help: map<string, Obj>, i: int) {
    && 0 <= i < |items|
    && !GoodEntry(items[i])
    && (forall j :: 0 <= j < i ==> GoodEntry(items[j]))
    && Load(items, lookup, help) == Raise(Load(items[..i], lookup, help), items[i])
  }

  lemma FailsAtShift(items: seq<(Key, Obj)>, lookup: map<string, Handler>, help: map<string, Obj>, i: int)
    requires items != [] && GoodEntry(items[0])
    requires FailsAt(items[1..], lookup[items[0].0.s := HandlerOf(items[0].1)], help[items[0].0.s := HelpOf(items[0].1)], i)
    ensures FailsAt(items, lookup, help, i + 1)
  {
    var rest := items[1..];
    assert items[..i + 1][1..] == rest[..i];
    assert items[i + 1] == rest[i];
    forall j | 0 <= j < i + 1 ensures GoodEntry(items[j]) {
      if j > 0 { assert items[j] == rest[j - 1]; }
    }
  }

  /**
   * When loading raises, it raises for the first offending item, and the
   * tables are those the items before it built, plus, for a one-element
   * tuple, that item's handler in the lookup table.
   */
  lemma {:induction false} LoadFailsAtFirstBadEntry(items: seq<(Key, Obj)>, lookup: map<string, Handler>, help: map<string, Obj>)
    requires Load(items, lookup, help).error.Some?
    ensures exists i :: FailsAt(items, lookup, help, i)
    decreases |items|
  {
    var entry := items[0];
    if GoodEntry(entry) {
      var lookup', help' := lookup[entry.0.s := HandlerOf(entry.1)], help[entry.0.s := HelpOf(entry.1)];
      LoadFailsAtFirstBadEntry(items[1..], lookup', help');
      var i :| FailsAt(items[1..], lookup', help', i);
      FailsAtShift(items, lookup, help, i);
    } else {
      assert items[..0] == [];
      assert FailsAt(items, lookup, help, 0);
    }
  }
}
