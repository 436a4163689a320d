/** The bottom navigation: five items, one per tab, the active one highlighted. */
module BottomNav {
  import opened JsCore
  import opened Types

  datatype NavItem = NavItem(id: string, title: string)

  const NavItems: seq<NavItem> := [
    NavItem("home", "Explorar"),
    NavItem("search", "Busca"),
    NavItem("create", "Escrever"),
    NavItem("store", "Loja"),
    NavItem("profile", "Estante")
  ]

  /** How one item is drawn. */
  datatype ItemView = ItemView(active: bool, iconSize: int, strokeWidth: real, showsLabel: bool)

  function RenderItem(activeTab: NavTab, item: NavItem): (v: ItemView)
    ensures v.active <==> activeTab.Id() == item.id
  {
    var isActive := activeTab.Id() == item.id;
    ItemView(isActive, if isActive then 24 else 22, if isActive then 2.5 else 2.0, isActive)
  }

  /** The items as drawn for the active tab. */
  function Render(activeTab: NavTab): (views: seq<ItemView>)
    ensures |views| == |NavItems|
    ensures forall i :: 0 <= i < |NavItems| ==> views[i] == RenderItem(activeTab, NavItems[i])
  {
    seq(|NavItems|, i requires 0 <= i < |NavItems| => RenderItem(activeTab, NavItems[i]))
  }

  /** Clicking item `i`: `onTabChange(item.id as NavTab)`. */
  function Click(i: int): (tab: Option<NavTab>)
    requires 0 <= i < |NavItems|
  {
    TabOfId(NavItems[i].id)
  }

  /** The position of a tab's item. */
  function ItemIndex(t: NavTab): (i: int)
    ensures 0 <= i < |NavItems| && NavItems[i].id == t.Id()
  {
    match t
    case Home => 0
    case Search => 1
    case Create => 2
    case Store => 3
    case Profile => 4
  }

  /** The item ids are pairwise distinct and are exactly the tab literals. */
  lemma ItemsAreTheTabs()
    ensures forall i, j :: 0 <= i < j < |NavItems| ==> NavItems[i].id != NavItems[j].id
    ensures forall i :: 0 <= i < |NavItems| ==> TabOfId(NavItems[i].id).Some?
    ensures forall t: NavTab :: NavItems[ItemIndex(t)].id == t.Id()
  {
  }

  /** Clicking an item reports that item's own tab. */
  lemma ClickReportsOwnTab(i: int)
    requires 0 <= i < |NavItems|
    ensures Click(i).Some? && Click(i).value.Id() == NavItems[i].id
    ensures ItemIndex(Click(i).value) == i
  {
  }

  /**
   * For every tab exactly its own item is active, and only the active item
   * shows its label and gets the large icon with the heavy stroke.
   */
  lemma ExactlyOneActive(activeTab: NavTab)
    ensures var views := Render(activeTab);
      views[ItemIndex(activeTab)].active &&
      (forall i :: 0 <= i < |views| && i != ItemIndex(activeTab) ==> !views[i].active) &&
      (forall i :: 0 <= i < |views| ==>
        views[i].showsLabel == views[i].active &&
        views[i].iconSize == (if views[i].active then 24 else 22) &&
        views[i].strokeWidth == (if views[i].active then 2.5 else 2.0))
  {
    var views := Render(activeTab);
    forall i | 0 <= i < |views| && i != ItemIndex(activeTab) ensures !views[i].active {
      ItemsAreTheTabs();
      assert NavItems[i].id != NavItems[ItemIndex(activeTab)].id;
    }
  }
}
