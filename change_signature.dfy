/** The parameter list of the Change Signature dialog: an optional `this` parameter,
    two groups the user may reorder (parameters without default values, then the
    remaining editable ones), an optional `params` parameter, a selected row, and a
    removed flag per parameter. The display and notification parts are not modelled. */
module ChangeSignature {
  import opened Wrappers

  /** A parameter of the symbol whose signature is changed; only its identity matters. */
  datatype ParameterSymbol = ParameterSymbol(name: string, ordinal: nat)

  datatype ParameterConfiguration = ParameterConfiguration(
    thisParameter: Option<ParameterSymbol>,
    parametersWithoutDefaultValues: seq<ParameterSymbol>,
    remainingEditableParameters: seq<ParameterSymbol>,
    paramsParameter: Option<ParameterSymbol>)

  /** A row of the dialog: the parameter it shows and whether the user removed it. */
  datatype ParameterViewModel = ParameterViewModel(parameterSymbol: ParameterSymbol, isRemoved: bool)

  /** Where a row index of `AllParameters` falls. */
  datatype Row = ThisRow | Group1Row(k: nat) | Group2Row(k: nat) | ParamsRow | NoRow

  /** The group a move is applied to. */
  datatype Group = Group1 | Group2

  /** The exceptions an operation on the selected row throws: `InvalidOperationException`
      from `Nullable.Value` with nothing selected, `ArgumentOutOfRangeException` from the
      list indexer for a selected index outside the list. */
  datatype SelectionError = InvalidOperation | ArgumentOutOfRange(index: int)

  function Symbols(ps: seq<ParameterViewModel>): seq<ParameterSymbol> {
    seq(|ps|, k requires 0 <= k < |ps| => ps[k].parameterSymbol)
  }

  function NewViewModels(ps: seq<ParameterSymbol>): seq<ParameterViewModel> {
    seq(|ps|, k requires 0 <= k < |ps| => ParameterViewModel(ps[k], false))
  }

  predicate NoneRemoved(ps: seq<ParameterViewModel>) {
    forall k :: 0 <= k < |ps| ==> !ps[k].isRemoved
  }

  /** `Where(p => !p.IsRemoved).Select(p => p.ParameterSymbol)`. */
  function Kept(ps: seq<ParameterViewModel>): (r: seq<ParameterSymbol>)
    ensures |r| <= |ps|
    ensures |r| == |ps| <==> NoneRemoved(ps)
    ensures NoneRemoved(ps) ==> r == Symbols(ps)
    ensures multiset(r) <= multiset(Symbols(ps))
  {
    if ps == [] then []
    else
      var rest := Kept(ps[1..]);
      assert Symbols(ps) == [ps[0].parameterSymbol] + Symbols(ps[1..]);
      assert NoneRemoved(ps) <==> !ps[0].isRemoved && NoneRemoved(ps[1..]) by {
        assert forall k :: 1 <= k < |ps| ==> ps[1..][k - 1] == ps[k];
      }
      (if ps[0].isRemoved then [] else [ps[0].parameterSymbol]) + rest
  }

  /** Filtering distributes over concatenation, so it keeps the order of what it keeps. */
  lemma {:induction false} KeptAppend(a: seq<ParameterViewModel>, b: seq<ParameterViewModel>)
    ensures Kept(a + b) == Kept(a) + Kept(b)
  {
    if a != [] {
      var head := if a[0].isRemoved then [] else [a[0].parameterSymbol];
      assert (a + b)[0] == a[0];
      assert (a + b)[1..] == a[1..] + b;
      assert Kept(a + b) == head + Kept(a[1..] + b);
      KeptAppend(a[1..], b);
      assert Kept(a) == head + Kept(a[1..]);
      assert head + (Kept(a[1..]) + Kept(b)) == (head + Kept(a[1..])) + Kept(b);
    } else {
      assert a + b == b;
    }
  }

  /** `List.RemoveAt(index)`. */
  function RemoveAt<T>(s: seq<T>, index: nat): (r: seq<T>)
    requires index < |s|
    ensures |r| == |s| - 1
    ensures forall k {:trigger r[k]} :: 0 <= k < |r| ==> r[k] == if k < index then s[k] else s[k + 1]
  {
    s[..index] + s[index + 1..]
  }

  /** `List.Insert(index, x)`. */
  function Insert<T>(s: seq<T>, index: nat, x: T): (r: seq<T>)
    requires index <= |s|
    ensures |r| == |s| + 1
    ensures forall k {:trigger r[k]} :: 0 <= k < |r| ==> r[k] == if k < index then s[k] else if k == index then x else s[k - 1]
  {
    s[..index] + [x] + s[index..]
  }

  /** Taking an item out and putting it back elsewhere keeps the items of the list. */
  lemma MoveKeepsItems<T>(s: seq<T>, index: nat, target: nat)
    requires index < |s| && target < |s|
    ensures multiset(Insert(RemoveAt(s, index), target, s[index])) == multiset(s)
  {
    var t := RemoveAt(s, index);
    assert s == s[..index] + [s[index]] + s[index + 1..];
    assert t == s[..index] + s[index + 1..];
    assert multiset(t) + multiset{s[index]} == multiset(s);
    assert t == t[..target] + t[target..];
  }

  /** `s` with the items at `i` and `j` exchanged. */
  function Swapped<T>(s: seq<T>, i: nat, j: nat): (r: seq<T>)
    requires i < |s| && j < |s|
    ensures |r| == |s| && r[i] == s[j] && r[j] == s[i]
    ensures forall k :: 0 <= k < |s| && k != i && k != j ==> r[k] == s[k]
  {
    s[i := s[j]][j := s[i]]
  }

  lemma SwappedInvolution<T>(s: seq<T>, i: nat, j: nat)
    requires i < |s| && j < |s|
    ensures Swapped(Swapped(s, i, j), j, i) == s
  {
  }

  /** Removing an item and inserting it one place up or down exchanges it with its
      neighbour, so the group keeps its items. */
  lemma AdjacentMoveIsSwap<T>(s: seq<T>, index: nat, delta: int)
    requires delta == -1 || delta == 1
    requires index < |s| && 0 <= index + delta < |s|
    ensures delta == -1 ==> Insert(RemoveAt(s, index), index + delta, s[index]) == Swapped(s, index - 1, index)
    ensures delta == 1 ==> Insert(RemoveAt(s, index), index + delta, s[index]) == Swapped(s, index, index + 1)
    ensures multiset(Insert(RemoveAt(s, index), index + delta, s[index])) == multiset(s)
  {
    var r := Insert(RemoveAt(s, index), index + delta, s[index]);
    var lo := if delta == -1 then index - 1 else index;
    MoveKeepsItems(s, index, index + delta);
    assert |r| == |s|;
    forall k | 0 <= k < |s|
      ensures r[k] == Swapped(s, lo, lo + 1)[k]
    {
    }
  }

  /** An adjacent move inside the second of four consecutive parts is a swap of the whole. */
  lemma SwapInSecond<T>(p: seq<T>, g: seq<T>, h: seq<T>, q: seq<T>, i: nat)
    requires i + 1 < |g|
    ensures p + Swapped(g, i, i + 1) + h + q == Swapped(p + g + h + q, |p| + i, |p| + i + 1)
  {
    var l := p + Swapped(g, i, i + 1) + h + q;
    var r := Swapped(p + g + h + q, |p| + i, |p| + i + 1);
    assert |l| == |r|;
    forall k | 0 <= k < |l| ensures l[k] == r[k] {
      if k < |p| {
      } else if k < |p| + |g| {
        assert l[k] == Swapped(g, i, i + 1)[k - |p|];
      } else {
      }
    }
  }

  /** An adjacent move inside the third of four consecutive parts is a swap of the whole. */
  lemma SwapInThird<T>(p: seq<T>, h: seq<T>, g: seq<T>, q: seq<T>, i: nat)
    requires i + 1 < |g|
    ensures p + h + Swapped(g, i, i + 1) + q == Swapped(p + h + g + q, |p| + |h| + i, |p| + |h| + i + 1)
  {
    var l := p + h + Swapped(g, i, i + 1) + q;
    var r := Swapped(p + h + g + q, |p| + |h| + i, |p| + |h| + i + 1);
    assert |l| == |r|;
    forall k | 0 <= k < |l| ensures l[k] == r[k] {
      if k < |p| + |h| {
      } else if k < |p| + |h| + |g| {
        assert l[k] == Swapped(g, i, i + 1)[k - |p| - |h|];
      } else {
      }
    }
  }

  /** An adjacent move inside the second of four consecutive parts swaps rows `n` and
      `m` of the whole. */
  lemma MoveInSecond<T>(p: seq<T>, g: seq<T>, h: seq<T>, q: seq<T>, index: nat, delta: int, n: nat, m: nat)
    requires delta == -1 || delta == 1
    requires index < |g| && 0 <= index + delta < |g|
    requires n == |p| + (if delta == -1 then index - 1 else index) && m == n + 1
    ensures p + Insert(RemoveAt(g, index), index + delta, g[index]) + h + q == Swapped(p + g + h + q, n, m)
  {
    AdjacentMoveIsSwap(g, index, delta);
    SwapInSecond(p, g, h, q, if delta == -1 then index - 1 else index);
  }

  /** An adjacent move inside the third of four consecutive parts swaps rows `n` and
      `m` of the whole. */
  lemma MoveInThird<T>(p: seq<T>, h: seq<T>, g: seq<T>, q: seq<T>, index: nat, delta: int, n: nat, m: nat)
    requires delta == -1 || delta == 1
    requires index < |g| && 0 <= index + delta < |g|
    requires n == |p| + |h| + (if delta == -1 then index - 1 else index) && m == n + 1
    ensures p + h + Insert(RemoveAt(g, index), index + delta, g[index]) + q == Swapped(p + h + g + q, n, m)
  {
    AdjacentMoveIsSwap(g, index, delta);
    SwapInThird(p, h, g, q, if delta == -1 then index - 1 else index);
  }

  /** Moving a row keeps the multiset of parameters its group shows. */
  lemma SymbolsMove(g: seq<ParameterViewModel>, index: nat, target: nat)
    requires index < |g| && target < |g|
    ensures multiset(Symbols(Insert(RemoveAt(g, index), target, g[index]))) == multiset(Symbols(g))
  {
    SymbolsMoveCommute(g, index, target);
    MoveKeepsItems(Symbols(g), index, target);
  }

  lemma SymbolsMoveCommute(g: seq<ParameterViewModel>, index: nat, target: nat)
    requires index < |g| && target < |g|
    ensures Symbols(Insert(RemoveAt(g, index), target, g[index])) ==
            Insert(RemoveAt(Symbols(g), index), target, Symbols(g)[index])
  {
    var a := Symbols(Insert(RemoveAt(g, index), target, g[index]));
    var b := Insert(RemoveAt(Symbols(g), index), target, Symbols(g)[index]);
    assert |a| == |b|;
    forall k | 0 <= k < |a| ensures a[k] == b[k] {
      if k < target {
        if k < index {} else {}
      } else if k > target {
        if k - 1 < index {} else {}
      }
    }
  }

  lemma SymbolsIgnoreFlag(g: seq<ParameterViewModel>, k: nat, removed: bool)
    requires k < |g|
    ensures Symbols(g[k := g[k].(isRemoved := removed)]) == Symbols(g)
  {
  }

  function OptionToSeq<T>(o: Option<T>): seq<T> {
    if o.Some? then [o.value] else []
  }

  /** The rows of the dialog: the `this` parameter, group 1, group 2 and the `params`
      parameter, in that order. */
  function Layout(t: Option<ParameterViewModel>, g1: seq<ParameterViewModel>, g2: seq<ParameterViewModel>,
                  p: Option<ParameterViewModel>): seq<ParameterViewModel> {
    OptionToSeq(t) + g1 + g2 + OptionToSeq(p)
  }

  /** The rows keep their parts: the list is as long as its parts together, and each
      part sits at its offset. */
  lemma LayoutParts(t: Option<ParameterViewModel>, g1: seq<ParameterViewModel>, g2: seq<ParameterViewModel>,
                    p: Option<ParameterViewModel>)
    ensures var l, o := Layout(t, g1, g2, p), |OptionToSeq(t)|;
            |l| == o + |g1| + |g2| + |OptionToSeq(p)| &&
            (t.Some? ==> l[0] == t.value) &&
            (forall k :: 0 <= k < |g1| ==> l[o + k] == g1[k]) &&
            (forall k :: 0 <= k < |g2| ==> l[o + |g1| + k] == g2[k]) &&
            (p.Some? ==> l[|l| - 1] == p.value)
  {
  }

  /** Two layouts with parts of the same shapes are equal only when their parts are. */
  lemma LayoutInjective(t: Option<ParameterViewModel>, g1: seq<ParameterViewModel>, g2: seq<ParameterViewModel>,
                        p: Option<ParameterViewModel>,
                        t': Option<ParameterViewModel>, g1': seq<ParameterViewModel>, g2': seq<ParameterViewModel>,
                        p': Option<ParameterViewModel>)
    requires Layout(t, g1, g2, p) == Layout(t', g1', g2', p')
    requires t.Some? == t'.Some? && p.Some? == p'.Some? && |g1| == |g1'| && |g2| == |g2'|
    ensures t == t' && g1 == g1' && g2 == g2' && p == p'
  {
    var a, b, a', b' := OptionToSeq(t), OptionToSeq(p), OptionToSeq(t'), OptionToSeq(p');
    assert Layout(t, g1, g2, p) == a + (g1 + (g2 + b));
    assert Layout(t', g1', g2', p') == a' + (g1' + (g2' + b'));
    ConcatCancel(a, g1 + (g2 + b), a', g1' + (g2' + b'));
    ConcatCancel(g1, g2 + b, g1', g2' + b');
    ConcatCancel(g2, b, g2', b');
    assert t.Some? ==> t.value == a[0] == t'.value;
    assert p.Some? ==> p.value == b[0] == p'.value;
  }

  lemma ConcatCancel<T>(a: seq<T>, b: seq<T>, a': seq<T>, b': seq<T>)
    requires a + b == a' + b' && |a| == |a'|
    ensures a == a' && b == b'
  {
    assert a == (a + b)[..|a|] && a' == (a' + b')[..|a|];
    assert b == (a + b)[|a|..] && b' == (a' + b')[|a|..];
  }

  /** `list.RemoveAt(index); list.Insert(index + delta, item)`. */
  function Moved<T>(s: seq<T>, index: nat, delta: int): (r: seq<T>)
    requires index < |s| && 0 <= index + delta < |s|
    ensures |r| == |s|
  {
    Insert(RemoveAt(s, index), index + delta, s[index])
  }

  /** Moving a row of a group one place up (`delta` -1) or down (`delta` 1) turns the
      list into the one with rows `n` and `m` exchanged. */
  lemma LayoutAdjacentMove(t: Option<ParameterViewModel>, g1: seq<ParameterViewModel>, g2: seq<ParameterViewModel>,
                           p: Option<ParameterViewModel>, group: Group, index: nat, delta: int, n: nat, m: nat,
                           g1': seq<ParameterViewModel>, g2': seq<ParameterViewModel>)
    requires delta == -1 || delta == 1
    requires group == Group1 ==> index < |g1| && 0 <= index + delta < |g1|
    requires group == Group2 ==> index < |g2| && 0 <= index + delta < |g2|
    requires n == |OptionToSeq(t)| + (if group == Group1 then 0 else |g1|) + (if delta == -1 then index - 1 else index)
    requires m == n + 1
    requires group == Group1 ==> g1' == Moved(g1, index, delta) && g2' == g2
    requires group == Group2 ==> g2' == Moved(g2, index, delta) && g1' == g1
    ensures Layout(t, g1', g2', p) == Swapped(Layout(t, g1, g2, p), n, m)
  {
    if group == Group1 {
      MoveInSecond(OptionToSeq(t), g1, g2, OptionToSeq(p), index, delta, n, m);
    } else {
      MoveInThird(OptionToSeq(t), g1, g2, OptionToSeq(p), index, delta, n, m);
    }
  }

  /** Setting the flag of one part's row sets it at that row of the whole list. */
  lemma LayoutSetFlag(t: Option<ParameterViewModel>, g1: seq<ParameterViewModel>, g2: seq<ParameterViewModel>,
                      p: Option<ParameterViewModel>, row: Row, index: nat, removed: bool)
    requires var l := Layout(t, g1, g2, p); index < |l|
    requires row.ThisRow? ==> t.Some? && index == 0
    requires row.Group1Row? ==> row.k < |g1| && index == |OptionToSeq(t)| + row.k
    requires row.Group2Row? ==> row.k < |g2| && index == |OptionToSeq(t)| + |g1| + row.k
    requires row.ParamsRow? ==> p.Some? && index == |OptionToSeq(t)| + |g1| + |g2|
    ensures var l := Layout(t, g1, g2, p);
            var flagged := l[index := l[index].(isRemoved := removed)];
            (row.ThisRow? ==> Layout(Some(t.value.(isRemoved := removed)), g1, g2, p) == flagged) &&
            (row.Group1Row? ==> Layout(t, g1[row.k := g1[row.k].(isRemoved := removed)], g2, p) == flagged) &&
            (row.Group2Row? ==> Layout(t, g1, g2[row.k := g2[row.k].(isRemoved := removed)], p) == flagged) &&
            (row.ParamsRow? ==> Layout(t, g1, g2, Some(p.value.(isRemoved := removed))) == flagged)
  {
    var l := Layout(t, g1, g2, p);
    var flagged := l[index := l[index].(isRemoved := removed)];
    match row
    case ThisRow =>
      assert Layout(Some(t.value.(isRemoved := removed)), g1, g2, p) == flagged;
    case Group1Row(k) =>
      var a := Layout(t, g1[k := g1[k].(isRemoved := removed)], g2, p);
      assert |a| == |flagged|;
      forall j | 0 <= j < |a| ensures a[j] == flagged[j] {
        if j < |OptionToSeq(t)| {
        } else if j < |OptionToSeq(t)| + |g1| {
        } else {
        }
      }
    case Group2Row(k) =>
      var a := Layout(t, g1, g2[k := g2[k].(isRemoved := removed)], p);
      assert |a| == |flagged|;
      forall j | 0 <= j < |a| ensures a[j] == flagged[j] {
        if j < |OptionToSeq(t)| + |g1| {
        } else if j < |OptionToSeq(t)| + |g1| + |g2| {
        } else {
        }
      }
    case ParamsRow =>
      assert Layout(t, g1, g2, Some(p.value.(isRemoved := removed))) == flagged;
    case NoRow =>
  }

  /** `rows.Any(p => p.IsRemoved)`. */
  predicate AnyRemoved(rows: seq<ParameterViewModel>) {
    exists k :: 0 <= k < |rows| && rows[k].isRemoved
  }

  lemma AnyRemovedConcat(a: seq<ParameterViewModel>, b: seq<ParameterViewModel>)
    ensures AnyRemoved(a + b) <==> AnyRemoved(a) || AnyRemoved(b)
  {
    if AnyRemoved(a + b) {
      var k :| 0 <= k < |a + b| && (a + b)[k].isRemoved;
      if k >= |a| {
        assert b[k - |a|] == (a + b)[k];
      }
    }
    if AnyRemoved(a) {
      var k :| 0 <= k < |a| && a[k].isRemoved;
      assert (a + b)[k] == a[k];
    }
    if AnyRemoved(b) {
      var k :| 0 <= k < |b| && b[k].isRemoved;
      assert (a + b)[|a| + k] == b[k];
    }
  }

  /** Some row of the list is removed exactly when the `this` row, a row of a group or
      the `params` row is. */
  lemma LayoutRemoved(t: Option<ParameterViewModel>, g1: seq<ParameterViewModel>, g2: seq<ParameterViewModel>,
                      p: Option<ParameterViewModel>)
    ensures AnyRemoved(Layout(t, g1, g2, p)) <==>
            (t.Some? && t.value.isRemoved) || !NoneRemoved(g1) || !NoneRemoved(g2) || (p.Some? && p.value.isRemoved)
  {
    AnyRemovedConcat(OptionToSeq(t), g1);
    AnyRemovedConcat(OptionToSeq(t) + g1, g2);
    AnyRemovedConcat(OptionToSeq(t) + g1 + g2, OptionToSeq(p));
    if t.Some? {
      assert OptionToSeq(t)[0] == t.value;
    }
    if p.Some? {
      assert OptionToSeq(p)[0] == p.value;
    }
  }

  /** A group's filtered parameters are its original parameters exactly when it still
      shows them in the original order and none of them is removed. */
  lemma KeptIsOriginal(g: seq<ParameterViewModel>, original: seq<ParameterSymbol>)
    requires multiset(Symbols(g)) == multiset(original)
    ensures Kept(g) == original <==> NoneRemoved(g) && Symbols(g) == original
  {
    assert |Symbols(g)| == |multiset(Symbols(g))| == |multiset(original)| == |original|;
  }

  class ChangeSignatureDialogViewModel {
    const originalParameterConfiguration: ParameterConfiguration
    var thisParameter: Option<ParameterViewModel>
    var parameterGroup1: seq<ParameterViewModel>
    var parameterGroup2: seq<ParameterViewModel>
    var paramsParameter: Option<ParameterViewModel>
    var selectedIndex: Option<int>

    /** The rows show the original parameters: the same `this` and `params`
        parameters, and each group a reordering of its original group. */
    predicate Valid()
      reads this
    {
      var original := originalParameterConfiguration;
      (thisParameter.Some? <==> original.thisParameter.Some?) &&
      (thisParameter.Some? ==> thisParameter.value.parameterSymbol == original.thisParameter.value) &&
      (paramsParameter.Some? <==> original.paramsParameter.Some?) &&
      (paramsParameter.Some? ==> paramsParameter.value.parameterSymbol == original.paramsParameter.value) &&
      multiset(Symbols(parameterGroup1)) == multiset(original.parametersWithoutDefaultValues) &&
      multiset(Symbols(parameterGroup2)) == multiset(original.remainingEditableParameters)
    }

    constructor (parameters: ParameterConfiguration)
      ensures originalParameterConfiguration == parameters
      ensures thisParameter == (if parameters.thisParameter.Some? then Some(ParameterViewModel(parameters.thisParameter.value, false)) else None)
      ensures paramsParameter == (if parameters.paramsParameter.Some? then Some(ParameterViewModel(parameters.paramsParameter.value, false)) else None)
      ensures parameterGroup1 == NewViewModels(parameters.parametersWithoutDefaultValues)
      ensures parameterGroup2 == NewViewModels(parameters.remainingEditableParameters)
      ensures selectedIndex == Some(if parameters.thisParameter.Some? then 1 else 0)
      ensures Valid() && !IsOkButtonEnabled()
    {
      originalParameterConfiguration := parameters;
      var startingSelectedIndex := 0;
      if parameters.thisParameter.Some? {
        startingSelectedIndex := startingSelectedIndex + 1;
        thisParameter := Some(ParameterViewModel(parameters.thisParameter.value, false));
      } else {
        thisParameter := None;
      }
      if parameters.paramsParameter.Some? {
        paramsParameter := Some(ParameterViewModel(parameters.paramsParameter.value, false));
      } else {
        paramsParameter := None;
      }
      parameterGroup1 := NewViewModels(parameters.parametersWithoutDefaultValues);
      parameterGroup2 := NewViewModels(parameters.remainingEditableParameters);
      selectedIndex := Some(startingSelectedIndex);
      new;
      assert Symbols(parameterGroup1) == parameters.parametersWithoutDefaultValues;
      assert Symbols(parameterGroup2) == parameters.remainingEditableParameters;
      LayoutRemoved(thisParameter, parameterGroup1, parameterGroup2, paramsParameter);
    }

    /** The number of rows before group 1. */
    function Offset(): nat
      reads this
    {
      if thisParameter.Some? then 1 else 0
    }

    /** Which part of the parameter list the row `index` shows. */
    function RowOf(index: int): Row
      reads this
    {
      var i := index - Offset();
      if thisParameter.Some? && index == 0 then ThisRow
      else if 0 <= i < |parameterGroup1| then Group1Row(i)
      else if |parameterGroup1| <= i < |parameterGroup1| + |parameterGroup2| then Group2Row(i - |parameterGroup1|)
      else if paramsParameter.Some? && i == |parameterGroup1| + |parameterGroup2| then ParamsRow
      else NoRow
    }

    function AllParameters(): seq<ParameterViewModel>
      reads this
    {
      Layout(thisParameter, parameterGroup1, parameterGroup2, paramsParameter)
    }

    /** The rows of `AllParameters` are exactly the indices `RowOf` places in a part,
        and each shows the item of its part. */
    lemma AllParametersRows(index: int)
      ensures 0 <= index < |AllParameters()| <==> !RowOf(index).NoRow?
      ensures match RowOf(index)
              case ThisRow => AllParameters()[index] == thisParameter.value
              case Group1Row(k) => AllParameters()[index] == parameterGroup1[k]
              case Group2Row(k) => AllParameters()[index] == parameterGroup2[k]
              case ParamsRow => AllParameters()[index] == paramsParameter.value
              case NoRow => true
    {
      LayoutParts(thisParameter, parameterGroup1, parameterGroup2, paramsParameter);
      match RowOf(index)
      case Group1Row(k) => assert index == Offset() + k;
      case Group2Row(k) => assert index == Offset() + |parameterGroup1| + k;
      case _ =>
    }

    /** The selection is not on the first row of its group, nor outside the groups. */
    predicate CanMoveUp()
      reads this
    {
      if selectedIndex.None? then false
      else
        var index := selectedIndex.value;
        var index := if thisParameter.None? then index else index - 1;
        if index <= 0 || index == |parameterGroup1| || index >= |parameterGroup1| + |parameterGroup2| then false
        else true
    }

    /** `CanMoveUp` holds exactly when the selected row and the one above it lie in the
        same reorderable group. */
    lemma CanMoveUpRows()
      ensures CanMoveUp() <==>
              selectedIndex.Some? &&
                     ((RowOf(selectedIndex.value).Group1Row? && RowOf(selectedIndex.value - 1).Group1Row?) ||
                      (RowOf(selectedIndex.value).Group2Row? && RowOf(selectedIndex.value - 1).Group2Row?))
    {
    }

    /** The selection is not on the last row of its group, nor outside the groups. */
    predicate CanMoveDown()
      reads this
    {
      if selectedIndex.None? then false
      else
        var index := selectedIndex.value;
        var index := if thisParameter.None? then index else index - 1;
        if index < 0 || index == |parameterGroup1| - 1 || index >= |parameterGroup1| + |parameterGroup2| - 1 then false
        else true
    }

    /** `CanMoveDown` holds exactly when the selected row and the one below it lie in the
        same reorderable group. */
    lemma CanMoveDownRows()
      ensures CanMoveDown() <==>
              selectedIndex.Some? &&
                     ((RowOf(selectedIndex.value).Group1Row? && RowOf(selectedIndex.value + 1).Group1Row?) ||
                      (RowOf(selectedIndex.value).Group2Row? && RowOf(selectedIndex.value + 1).Group2Row?))
    {
    }

    /** The `SelectedIndex` setter: -1 clears the selection; setting the current value
        changes nothing. `changed` tells whether the change notifications are raised. */
    method SetSelectedIndex(value: Option<int>) returns (changed: bool)
      modifies this`selectedIndex
      ensures selectedIndex == (if value == Some(-1) then None else value)
      ensures changed <==> selectedIndex != old(selectedIndex)
    {
      var newSelectedIndex := if value == Some(-1) then None else value;
      if newSelectedIndex == selectedIndex {
        return false;
      }
      selectedIndex := newSelectedIndex;
      return true;
    }

    /** Moves the item at `index` of the group `delta` places, then shifts the selection by
        `delta` (an empty selection stays empty). */
    method Move(group: Group, index: int, delta: int)
      requires Valid()
      requires group == Group1 ==> 0 <= index < |parameterGroup1| && 0 <= index + delta < |parameterGroup1|
      requires group == Group2 ==> 0 <= index < |parameterGroup2| && 0 <= index + delta < |parameterGroup2|
      modifies this`parameterGroup1, this`parameterGroup2, this`selectedIndex
      ensures Valid()
      ensures group == Group1 ==> parameterGroup1 == Moved(old(parameterGroup1), index, delta) && parameterGroup2 == old(parameterGroup2)
      ensures group == Group2 ==> parameterGroup2 == Moved(old(parameterGroup2), index, delta) && parameterGroup1 == old(parameterGroup1)
      ensures selectedIndex == if old(selectedIndex).None? || old(selectedIndex).value + delta == -1 then None
                               else Some(old(selectedIndex).value + delta)
    {
      if group == Group1 {
        var param := parameterGroup1[index];
        var list := RemoveAt(parameterGroup1, index);
        list := Insert(list, index + delta, param);
        SymbolsMove(parameterGroup1, index, index + delta);
        parameterGroup1 := list;
      } else {
        var param := parameterGroup2[index];
        var list := RemoveAt(parameterGroup2, index);
        list := Insert(list, index + delta, param);
        SymbolsMove(parameterGroup2, index, index + delta);
        parameterGroup2 := list;
      }
      var _ := SetSelectedIndex(if selectedIndex.None? then None else Some(selectedIndex.value + delta));
    }

    /** Exchanges the selected parameter with the one above it, inside its group, and
        moves the selection with it. */
    method MoveUp()
      requires Valid() && CanMoveUp()
      modifies this`parameterGroup1, this`parameterGroup2, this`selectedIndex
      ensures Valid()
      ensures selectedIndex == Some(old(selectedIndex).value - 1)
      ensures AllParameters() == Swapped(old(AllParameters()), old(selectedIndex).value - 1, old(selectedIndex).value)
      ensures |parameterGroup1| == old(|parameterGroup1|) && |parameterGroup2| == old(|parameterGroup2|)
      ensures CanMoveDown()
    {
      var index := selectedIndex.value;
      index := if thisParameter.None? then index else index - 1;
      ghost var sel := selectedIndex.value;
      var group := if index < |parameterGroup1| then Group1 else Group2;
      var groupIndex := if index < |parameterGroup1| then index else index - |parameterGroup1|;
      ghost var g1, g2 := parameterGroup1, parameterGroup2;
      Move(group, groupIndex, -1);
      LayoutAdjacentMove(thisParameter, g1, g2, paramsParameter, group, groupIndex, -1, sel - 1, sel, parameterGroup1, parameterGroup2);
    }

    /** Exchanges the selected parameter with the one below it, inside its group, and
        moves the selection with it. */
    method MoveDown()
      requires Valid() && CanMoveDown()
      modifies this`parameterGroup1, this`parameterGroup2, this`selectedIndex
      ensures Valid()
      ensures selectedIndex == Some(old(selectedIndex).value + 1)
      ensures AllParameters() == Swapped(old(AllParameters()), old(selectedIndex).value, old(selectedIndex).value + 1)
      ensures |parameterGroup1| == old(|parameterGroup1|) && |parameterGroup2| == old(|parameterGroup2|)
      ensures CanMoveUp()
    {
      var index := selectedIndex.value;
      index := if thisParameter.None? then index else index - 1;
      ghost var sel := selectedIndex.value;
      var group := if index < |parameterGroup1| then Group1 else Group2;
      var groupIndex := if index < |parameterGroup1| then index else index - |parameterGroup1|;
      ghost var g1, g2 := parameterGroup1, parameterGroup2;
      Move(group, groupIndex, 1);
      LayoutAdjacentMove(thisParameter, g1, g2, paramsParameter, group, groupIndex, 1, sel, sel + 1, parameterGroup1, parameterGroup2);
    }

    /** Moving a parameter up and then down again restores the list and the selection. */
    method MoveUpThenDown()
      requires Valid() && CanMoveUp()
      modifies this`parameterGroup1, this`parameterGroup2, this`selectedIndex
      ensures Valid()
      ensures parameterGroup1 == old(parameterGroup1) && parameterGroup2 == old(parameterGroup2)
      ensures selectedIndex == old(selectedIndex)
    {
      ghost var s := selectedIndex.value;
      ghost var before := AllParameters();
      MoveUp();
      MoveDown();
      SwappedInvolution(before, s - 1, s);
      LayoutInjective(thisParameter, parameterGroup1, parameterGroup2, paramsParameter,
                      old(thisParameter), old(parameterGroup1), old(parameterGroup2), old(paramsParameter));
    }

    /** Removing is possible for a selected parameter of a group or the `params`
        parameter that is not already removed, never for the `this` parameter. A
        selected index outside the list makes the source's `AllParameters[index]` throw. */
    function CanRemove(): (r: Result<bool, SelectionError>)
      reads this
      ensures r.Failure? <==> selectedIndex.Some? && RowOf(selectedIndex.value).NoRow?
      ensures r.Failure? ==> r.error == ArgumentOutOfRange(selectedIndex.value)
      ensures r.Success? ==>
                (r.value <==> selectedIndex.Some? &&
                              match RowOf(selectedIndex.value)
                              case Group1Row(k) => !parameterGroup1[k].isRemoved
                              case Group2Row(k) => !parameterGroup2[k].isRemoved
                              case ParamsRow => !paramsParameter.value.isRemoved
                              case _ => false)
    {
      if selectedIndex.None? then Success(false)
      else
        var index := selectedIndex.value;
        if index == 0 && thisParameter.Some? then Success(false)
        else
          AllParametersRows(index);
          if 0 <= index < |AllParameters()| then Success(!AllParameters()[index].isRemoved)
          else Failure(ArgumentOutOfRange(index))
    }

    /** Restoring is possible for a selected parameter of a group or the `params`
        parameter that is removed, never for the `this` parameter. A selected index
        outside the list makes the source's `AllParameters[index]` throw. */
    function CanRestore(): (r: Result<bool, SelectionError>)
      reads this
      ensures r.Failure? <==> selectedIndex.Some? && RowOf(selectedIndex.value).NoRow?
      ensures r.Failure? ==> r.error == ArgumentOutOfRange(selectedIndex.value)
      ensures r.Success? ==>
                (r.value <==> selectedIndex.Some? &&
                              match RowOf(selectedIndex.value)
                              case Group1Row(k) => parameterGroup1[k].isRemoved
                              case Group2Row(k) => parameterGroup2[k].isRemoved
                              case ParamsRow => paramsParameter.value.isRemoved
                              case _ => false)
    {
      if selectedIndex.None? then Success(false)
      else
        var index := selectedIndex.value;
        if index == 0 && thisParameter.Some? then Success(false)
        else
          AllParametersRows(index);
          if 0 <= index < |AllParameters()| then Success(AllParameters()[index].isRemoved)
          else Failure(ArgumentOutOfRange(index))
    }

    /** Removing and restoring fail on the same selections; otherwise they are never both
        offered, and on a selected row other than `this` one of them is. */
    lemma RemoveRestoreExclusive()
      ensures CanRemove().Failure? <==> CanRestore().Failure?
      ensures CanRemove().Success? ==> !(CanRemove().value && CanRestore().value)
      ensures CanRemove().Success? && selectedIndex.Some? && !RowOf(selectedIndex.value).ThisRow? ==>
                CanRemove().value || CanRestore().value
    {
    }

    /** `AllParameters[SelectedIndex.Value].IsRemoved = removed`: sets the removed flag of
        the selected row and of no other row. */
    method SetSelectedRemoved(removed: bool)
      requires Valid() && selectedIndex.Some? && 0 <= selectedIndex.value < |AllParameters()|
      modifies this`thisParameter, this`parameterGroup1, this`parameterGroup2, this`paramsParameter
      ensures Valid()
      ensures AllParameters() == old(AllParameters())[selectedIndex.value := old(AllParameters())[selectedIndex.value].(isRemoved := removed)]
      ensures !RowOf(selectedIndex.value).ThisRow? ==> CanRestore() == Success(removed) && CanRemove() == Success(!removed)
    {
      var index := selectedIndex.value;
      var row := RowOf(index);
      AllParametersRows(index);
      LayoutSetFlag(thisParameter, parameterGroup1, parameterGroup2, paramsParameter, row, index, removed);
      match row {
        case ThisRow =>
          thisParameter := Some(thisParameter.value.(isRemoved := removed));
        case Group1Row(k) =>
          SymbolsIgnoreFlag(parameterGroup1, k, removed);
          parameterGroup1 := parameterGroup1[k := parameterGroup1[k].(isRemoved := removed)];
        case Group2Row(k) =>
          SymbolsIgnoreFlag(parameterGroup2, k, removed);
          parameterGroup2 := parameterGroup2[k := parameterGroup2[k].(isRemoved := removed)];
        case ParamsRow =>
          paramsParameter := Some(paramsParameter.value.(isRemoved := removed));
      }
    }

    /** Marks the selected parameter removed. With no selection the source's
        `_selectedIndex.Value` throws, and with one outside the list its indexer does;
        nothing changes then. */
    method Remove() returns (r: Result<(), SelectionError>)
      requires Valid()
      modifies this`thisParameter, this`parameterGroup1, this`parameterGroup2, this`paramsParameter
      ensures Valid()
      ensures r == Failure(InvalidOperation) <==> selectedIndex.None?
      ensures r.Failure? <==> selectedIndex.None? || !(0 <= selectedIndex.value < |old(AllParameters())|)
      ensures r.Failure? ==>
                thisParameter == old(thisParameter) && parameterGroup1 == old(parameterGroup1) &&
                parameterGroup2 == old(parameterGroup2) && paramsParameter == old(paramsParameter)
      ensures r.Success? ==>
                AllParameters() == old(AllParameters())[selectedIndex.value := old(AllParameters())[selectedIndex.value].(isRemoved := true)]
      ensures r.Success? && !RowOf(selectedIndex.value).ThisRow? ==>
                CanRestore() == Success(true) && CanRemove() == Success(false)
    {
      if selectedIndex.None? {
        return Failure(InvalidOperation);
      }
      var index := selectedIndex.value;
      if !(0 <= index < |AllParameters()|) {
        return Failure(ArgumentOutOfRange(index));
      }
      SetSelectedRemoved(true);
      return Success(());
    }

    /** Marks the selected parameter as no longer removed, failing as `Remove` does. */
    method Restore() returns (r: Result<(), SelectionError>)
      requires Valid()
      modifies this`thisParameter, this`parameterGroup1, this`parameterGroup2, this`paramsParameter
      ensures Valid()
      ensures r == Failure(InvalidOperation) <==> selectedIndex.None?
      ensures r.Failure? <==> selectedIndex.None? || !(0 <= selectedIndex.value < |old(AllParameters())|)
      ensures r.Failure? ==>
                thisParameter == old(thisParameter) && parameterGroup1 == old(parameterGroup1) &&
                parameterGroup2 == old(parameterGroup2) && paramsParameter == old(paramsParameter)
      ensures r.Success? ==>
                AllParameters() == old(AllParameters())[selectedIndex.value := old(AllParameters())[selectedIndex.value].(isRemoved := false)]
      ensures r.Success? && !RowOf(selectedIndex.value).ThisRow? ==>
                CanRemove() == Success(true) && CanRestore() == Success(false)
    {
      if selectedIndex.None? {
        return Failure(InvalidOperation);
      }
      var index := selectedIndex.value;
      if !(0 <= index < |AllParameters()|) {
        return Failure(ArgumentOutOfRange(index));
      }
      SetSelectedRemoved(false);
      return Success(());
    }

    /** Some parameter is removed, or a group is no longer in its original order. */
    predicate IsOkButtonEnabled()
      reads this
    {
      AnyRemoved(AllParameters()) ||
      Symbols(parameterGroup1) != originalParameterConfiguration.parametersWithoutDefaultValues ||
      Symbols(parameterGroup2) != originalParameterConfiguration.remainingEditableParameters
    }

    /** The configuration the dialog returns: the original `this` parameter, each group
        without its removed parameters, and `params` unless it is absent or removed. */
    function GetParameterConfiguration(): (r: ParameterConfiguration)
      reads this
      ensures r.thisParameter == originalParameterConfiguration.thisParameter
      ensures r.parametersWithoutDefaultValues == Kept(parameterGroup1)
      ensures r.remainingEditableParameters == Kept(parameterGroup2)
      ensures r.paramsParameter.Some? <==> paramsParameter.Some? && !paramsParameter.value.isRemoved
      ensures r.paramsParameter.Some? ==> r.paramsParameter == Some(paramsParameter.value.parameterSymbol)
      ensures Valid() ==> multiset(r.parametersWithoutDefaultValues) <= multiset(originalParameterConfiguration.parametersWithoutDefaultValues)
      ensures Valid() ==> multiset(r.remainingEditableParameters) <= multiset(originalParameterConfiguration.remainingEditableParameters)
    {
      ParameterConfiguration(
        originalParameterConfiguration.thisParameter,
        Kept(parameterGroup1),
        Kept(parameterGroup2),
        if paramsParameter.None? || paramsParameter.value.isRemoved then None else Some(paramsParameter.value.parameterSymbol))
    }

    /** OK is enabled exactly when the returned configuration differs from the original,
        or when the `this` row was marked removed (which the configuration ignores). */
    lemma OkButtonMeansChange()
      requires Valid()
      ensures IsOkButtonEnabled() <==>
              GetParameterConfiguration() != originalParameterConfiguration ||
              (thisParameter.Some? && thisParameter.value.isRemoved)
    {
      var original, r := originalParameterConfiguration, GetParameterConfiguration();
      LayoutRemoved(thisParameter, parameterGroup1, parameterGroup2, paramsParameter);
      KeptIsOriginal(parameterGroup1, original.parametersWithoutDefaultValues);
      KeptIsOriginal(parameterGroup2, original.remainingEditableParameters);
      assert r.paramsParameter == original.paramsParameter <==> !(paramsParameter.Some? && paramsParameter.value.isRemoved);
      assert r == original <==>
             r.parametersWithoutDefaultValues == original.parametersWithoutDefaultValues &&
             r.remainingEditableParameters == original.remainingEditableParameters &&
             r.paramsParameter == original.paramsParameter;
    }
  }
}
