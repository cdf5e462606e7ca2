/**
 * The view-model helpers of viewmodel.go: filtering a navigation tree by
 * permission, the master view model's flash, and the view-include kinds.
 */
module ViewModel {
  import opened Wrappers
  import opened FlashStore

  // ------------------------------------------------------------------
  // Navigation tree
  // ------------------------------------------------------------------

  datatype NavItem = NavItem(src: string, title: string, active: bool, subNavItems: seq<NavItem>,
                             divider: bool, permitted: bool)

  /** What one item contributes to the filtered list: itself (with filtered sub-items) or nothing. */
  function Kept(item: NavItem): (r: seq<NavItem>)
    ensures |r| <= 1
    decreases item, 1
  {
    if |item.subNavItems| > 0 then
      var subs := Filter(item.subNavItems);
      if |subs| > 0 then [item.(subNavItems := subs)] else []
    else if item.permitted then [item]
    else []
  }

  /**
   * The filtered tree: a leaf survives when it is permitted; an item with
   * sub-items survives, carrying its filtered sub-items, when any of them
   * survive, whatever its own flag says.
   */
  function Filter(items: seq<NavItem>): (r: seq<NavItem>)
    ensures |r| <= |items|
    decreases items, 0
  {
    if items == [] then [] else Kept(items[0]) + Filter(items[1..])
  }

  /** Filtering distributes over concatenation, so surviving items keep their relative order. */
  lemma {:induction false} FilterConcat(a: seq<NavItem>, b: seq<NavItem>)
    ensures Filter(a + b) == Filter(a) + Filter(b)
  {
    if a == [] {
      assert a + b == b;
    } else {
      assert (a + b)[0] == a[0];
      assert (a + b)[1..] == a[1..] + b;
      FilterConcat(a[1..], b);
    }
  }

  /** A leaf survives iff it is permitted, and survives unchanged. */
  lemma FilterLeaf(item: NavItem)
    requires item.subNavItems == []
    ensures Filter([item]) == if item.permitted then [item] else []
  {
    assert [item][1..] == [];
  }

  /** An item with sub-items survives iff its filtered sub-items are non-empty; its own flag is ignored. */
  lemma FilterBranch(item: NavItem)
    requires item.subNavItems != []
    ensures Filter([item]) ==
      if Filter(item.subNavItems) != [] then [item.(subNavItems := Filter(item.subNavItems))] else []
    ensures Filter([item.(permitted := !item.permitted)]) ==
      if Filter(item.subNavItems) != [] then [item.(permitted := !item.permitted, subNavItems := Filter(item.subNavItems))] else []
  {
    assert [item][1..] == [];
    assert [item.(permitted := !item.permitted)][1..] == [];
  }

  /** Every item of a filtered list, at any depth, is a permitted leaf or has surviving sub-items. */
  predicate Filtered(items: seq<NavItem>)
    decreases items
  {
    forall k :: 0 <= k < |items| ==>
      if items[k].subNavItems == [] then items[k].permitted
      else Filtered(items[k].subNavItems)
  }

  /** Filtering yields a filtered list. */
  lemma {:induction false} FilterIsFiltered(items: seq<NavItem>)
    ensures Filtered(Filter(items))
    decreases items
  {
    if items != [] {
      var item := items[0];
      FilterIsFiltered(items[1..]);
      if |item.subNavItems| > 0 {
        FilterIsFiltered(item.subNavItems);
      }
      var r := Filter(items);
      assert r == Kept(item) + Filter(items[1..]);
      forall k | 0 <= k < |r|
        ensures if r[k].subNavItems == [] then r[k].permitted else Filtered(r[k].subNavItems)
      {
        if k >= |Kept(item)| {
          assert r[k] == Filter(items[1..])[k - |Kept(item)|];
        }
      }
    }
  }

  /** A filtered list is left as it is. */
  lemma {:induction false} FilterFixesFiltered(items: seq<NavItem>)
    requires Filtered(items)
    ensures Filter(items) == items
    decreases items
  {
    if items != [] {
      var item := items[0];
      assert Filtered(items[1..]) by {
        forall k | 0 <= k < |items[1..]|
          ensures if items[1..][k].subNavItems == [] then items[1..][k].permitted
                  else Filtered(items[1..][k].subNavItems)
        {
          assert items[1..][k] == items[k + 1];
        }
      }
      FilterFixesFiltered(items[1..]);
      if item.subNavItems != [] {
        assert Filtered(item.subNavItems);
        FilterFixesFiltered(item.subNavItems);
        assert item.(subNavItems := item.subNavItems) == item;
      }
      assert items == [item] + items[1..];
    }
  }

  /** Filtering is idempotent. */
  lemma FilterIdempotent(items: seq<NavItem>)
    ensures Filter(Filter(items)) == Filter(items)
  {
    FilterIsFiltered(items);
    FilterFixesFiltered(Filter(items));
  }

  /**
   * `filterPermitted`: walk the items in order, appending each survivor
   * (with its sub-items filtered recursively) to the result.
   */
  method FilterPermitted(navItems: seq<NavItem>) returns (newItems: seq<NavItem>)
    ensures newItems == Filter(navItems)
    decreases navItems
  {
    newItems := [];
    var i := 0;
    while i < |navItems|
      invariant 0 <= i <= |navItems|
      invariant newItems == Filter(navItems[..i])
    {
      var item := navItems[i];
      FilterConcat(navItems[..i], [item]);
      assert navItems[..i + 1] == navItems[..i] + [item];
      assert [item][1..] == [];
      if |item.subNavItems| > 0 {
        var subs := FilterPermitted(item.subNavItems);
        item := item.(subNavItems := subs);
        if |item.subNavItems| > 0 {
          newItems := newItems + [item];
        }
      } else if item.permitted {
        newItems := newItems + [item];
      }
      i := i + 1;
    }
    assert navItems[..|navItems|] == navItems;
  }

  // ------------------------------------------------------------------
  // Master view model
  // ------------------------------------------------------------------

  datatype MasterViewModel = MasterViewModel(title: string, pageTitle: string, bodyClasses: string,
                                             navItems: seq<NavItem>, path: string, flash: Flash?)

  /**
   * `GetFlash`: the view model's flash, or a fresh empty one when it has
   * none. The receiver is a value, so the view model itself keeps no flash.
   */
  method GetFlash(m: MasterViewModel) returns (f: Flash)
    ensures m.flash != null ==> f == m.flash
    ensures m.flash == null ==> fresh(f) && f.messages == None
  {
    var model := m;
    if model.flash == null {
      var created := new Flash();
      model := model.(flash := created);
    }
    f := model.flash;
  }

  // ------------------------------------------------------------------
  // View-include kinds
  // ------------------------------------------------------------------

  const JsHead := "js-head"
  const JsHeadInline := "js-head-inline"
  const CssHead := "css-head"
  const CssHeadInline := "css-head-inline"
  const JsBody := "js-body"
  const JsBodyInline := "js-body-inline"
  const CssBody := "css-body"
  const CssBodyInline := "css-body-inline"
  const JsPostBody := "js-postBody"
  const JsPostBodyInline := "js-postBody-inline"

  predicate IsJsHead(h: string) { h == JsHead }
  predicate IsJsHeadInline(h: string) { h == JsHeadInline }
  predicate IsCssHead(h: string) { h == CssHead }
  predicate IsCssHeadInline(h: string) { h == CssHeadInline }
  predicate IsJsBody(h: string) { h == JsBody }
  predicate IsJsBodyInline(h: string) { h == JsBodyInline }
  predicate IsCssBody(h: string) { h == CssBody }
  predicate IsCssBodyInline(h: string) { h == CssBodyInline }
  predicate IsJsPostBody(h: string) { h == JsPostBody }
  predicate IsJsPostBodyInline(h: string) { h == JsPostBodyInline }

  /** The ten kinds, and the ten predicates in the same order. */
  const Kinds: seq<string> := [JsHead, JsHeadInline, CssHead, CssHeadInline, JsBody, JsBodyInline,
                               CssBody, CssBodyInline, JsPostBody, JsPostBodyInline]
  const Tests: seq<string -> bool> := [IsJsHead, IsJsHeadInline, IsCssHead, IsCssHeadInline, IsJsBody,
                                       IsJsBodyInline, IsCssBody, IsCssBodyInline, IsJsPostBody, IsJsPostBodyInline]

  /** The ten kinds are pairwise distinct. */
  lemma KindsDistinct()
    ensures |Kinds| == 10
    ensures forall i, j :: 0 <= i < j < |Kinds| ==> Kinds[i] != Kinds[j]
  {
  }

  /** Each predicate holds for exactly its own kind among the ten. */
  lemma EachTestMatchesOneKind()
    ensures |Tests| == |Kinds|
    ensures forall i, j :: 0 <= i < |Tests| && 0 <= j < |Kinds| ==> (Tests[i](Kinds[j]) <==> i == j)
  {
    KindsDistinct();
  }
}
