/**
 * The list of module names shown in a modules list (a `DefaultListModel` in the
 * controller's form and in the advanced options panel): the names are kept
 * distinct, and modules not listed yet are appended in the order given.
 */
module ModuleLists {
  /** `DefaultListModel.indexOf`: the first index holding `x`, or -1. */
  function IndexOf(xs: seq<string>, x: string): (i: int)
    ensures -1 <= i < |xs|
    ensures i == -1 <==> x !in xs
    ensures i >= 0 ==> xs[i] == x && forall j :: 0 <= j < i ==> xs[j] != x
  {
    if |xs| == 0 then -1
    else if xs[0] == x then 0
    else
      var i := IndexOf(xs[1..], x);
      assert x in xs <==> x in xs[1..];
      if i == -1 then -1 else i + 1
  }

  predicate Distinct(xs: seq<string>) {
    forall i, j :: 0 <= i < j < |xs| ==> xs[i] != xs[j]
  }

  /** A module name that `addCustomModule` lists: non-empty and not listed yet. */
  predicate IsNewModule(m: string, items: seq<string>) {
    m != "" && m !in items
  }

  lemma DistinctSnoc(xs: seq<string>, x: string)
    requires Distinct(xs) && x !in xs
    ensures Distinct(xs + [x])
  {
  }

  /**
   * The list after the first loop of `updateModulesList`: each module not yet
   * listed is appended, in the order given.
   */
  function AppendMissing(items: seq<string>, modules: seq<string>): (r: seq<string>)
    ensures |items| <= |r| && r[..|items|] == items
    ensures forall m :: m in r <==> m in items || m in modules
    ensures forall k :: |items| <= k < |r| ==> r[k] in modules && r[k] !in items
    ensures Distinct(items) ==> Distinct(r)
    decreases |modules|
  {
    if |modules| == 0 then items
    else
      var prev := AppendMissing(items, modules[..|modules| - 1]);
      var m := modules[|modules| - 1];
      assert forall x :: x in modules ==> x in modules[..|modules| - 1] || x == m;
      if m in prev then prev
      else
        assert (prev + [m])[..|items|] == items;
        prev + [m]
  }

  /** Appending what is missing twice appends nothing the second time. */
  lemma AppendMissingIdempotent(items: seq<string>, modules: seq<string>)
    ensures AppendMissing(AppendMissing(items, modules), modules) == AppendMissing(items, modules)
  {
    var once := AppendMissing(items, modules);
    AppendNothingMissing(once, modules);
  }

  lemma {:induction false} AppendNothingMissing(items: seq<string>, modules: seq<string>)
    requires forall m :: m in modules ==> m in items
    ensures AppendMissing(items, modules) == items
    decreases |modules|
  {
    if |modules| > 0 {
      AppendNothingMissing(items, modules[..|modules| - 1]);
      assert modules[|modules| - 1] in modules;
    }
  }
}
