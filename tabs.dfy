/** The tabbed "operations" component: a row of tabs and a set of content
    panels; hovering a tab makes it and its panel the only active ones. */
module Tabs {
  import opened Dom

  class TabbedComponent {
    /** `data-tab` of each `.operations__tab`, in document order. */
    const tabKeys: seq<string>
    /** Whether each tab carries `operations__tab--active`. */
    const tabActive: array<bool>
    /** The `<key>` of each panel's `operations__content--<key>` class, in
        document order. */
    const contentKeys: seq<string>
    /** Whether each panel carries `operations__content--active`. */
    const contentActive: array<bool>

    ghost predicate Valid()
      reads this
    {
      tabActive.Length == |tabKeys| && contentActive.Length == |contentKeys|
      && tabActive != contentActive
    }

    /** The component as the page's markup declares it. */
    constructor (tabs: seq<string>, tabsOn: seq<bool>, contents: seq<string>, contentsOn: seq<bool>)
      requires |tabsOn| == |tabs| && |contentsOn| == |contents|
      ensures Valid() && fresh(tabActive) && fresh(contentActive)
      ensures tabKeys == tabs && contentKeys == contents
      ensures tabActive[..] == tabsOn && contentActive[..] == contentsOn
    {
      tabKeys := tabs;
      contentKeys := contents;
      tabActive := new bool[|tabsOn|](i requires 0 <= i < |tabsOn| => tabsOn[i]);
      contentActive := new bool[|contentsOn|](i requires 0 <= i < |contentsOn| => contentsOn[i]);
    }

    /** The tab container's `mouseover` handler. `target` is the tab that
        `closest('.operations__tab')` finds from the hovered element, if any.
        All tabs and panels are cleared, the tab is activated, and then the
        first panel whose key is the tab's `data-tab` is activated. When no
        panel has that key, `querySelector` returns null and `.classList` on
        null raises a TypeError at that last step, after the clearing and
        the tab's activation: `thrown` reports it. */
    method Mouseover(target: Option<nat>) returns (thrown: bool)
      requires Valid()
      requires target.Some? ==> target.value < |tabKeys|
      modifies tabActive, contentActive
      ensures Valid()
      ensures target.None? ==> !thrown && unchanged(tabActive, contentActive)
      ensures target.Some? ==>
        OnlyAt(tabActive[..], target.value) && CountTrue(tabActive[..]) == 1
      ensures target.Some? ==>
        (thrown <==> forall j :: 0 <= j < |contentKeys| ==> contentKeys[j] != tabKeys[target.value])
      ensures target.Some? ==> forall j :: 0 <= j < contentActive.Length ==>
        (contentActive[j] <==> IsFirst(contentKeys, tabKeys[target.value], j))
      ensures target.Some? && !thrown ==> CountTrue(contentActive[..]) == 1
    {
      thrown := false;
      if target.None? {
        return;
      }
      var t := target.value;
      for i := 0 to tabActive.Length
        invariant forall j :: 0 <= j < i ==> !tabActive[j]
      {
        tabActive[i] := false;
      }
      for i := 0 to contentActive.Length
        invariant forall j :: 0 <= j < i ==> !contentActive[j]
        invariant forall j :: 0 <= j < tabActive.Length ==> !tabActive[j]
      {
        contentActive[i] := false;
      }
      tabActive[t] := true;
      assert OnlyAt(tabActive[..], t);
      OnlyAtIff(tabActive[..], t);
      var found := QuerySelector(contentKeys, tabKeys[t]);
      match found
      case None =>
        thrown := true;
      case Some(k) =>
        contentActive[k] := true;
        assert OnlyAt(contentActive[..], k);
        OnlyAtIff(contentActive[..], k);
        assert forall j :: 0 <= j < |contentKeys| && IsFirst(contentKeys, tabKeys[t], j) ==> j == k;
    }
  }
}
