/** The tabs of the dashboard panel: each tab names the content panel it
    shows (`data-tab-target`), each panel carries its name
    (`data-tab-content`). Activating a name marks the tabs and panels of
    that name active, selects those tabs, shows those panels and hides every
    other panel. The two node lists are fixed when the page loads and are
    updated element by element, so they are arrays here. */
module Tabs {
  import opened Base
  import opened Collections

  const DefaultTab: string := "feeds"

  /** A tab button: its target, its `active` class and its `aria-selected`
      attribute. */
  datatype Tab = Tab(target: string, active: bool, ariaSelected: string)

  /** A content panel: its name, its `active` class and whether it carries
      the `hidden` attribute. */
  datatype Panel = Panel(name: string, active: bool, hidden: bool)

  /** A tab after `activateDashboardTab(target)`. */
  function TabFor(t: Tab, target: string): (r: Tab)
    ensures r.target == t.target
    ensures r.active <==> t.target == target
    ensures r.ariaSelected == BoolText(r.active)
  {
    t.(active := t.target == target, ariaSelected := BoolText(t.target == target))
  }

  /** A panel after `activateDashboardTab(target)`. */
  function PanelFor(p: Panel, target: string): (r: Panel)
    ensures r.name == p.name
    ensures r.active <==> p.name == target
    ensures r.hidden <==> !r.active
  {
    p.(active := p.name == target, hidden := p.name != target)
  }

  function TargetOf(t: Tab): string { t.target }

  function ActivatedTabs(ts: seq<Tab>, target: string): seq<Tab> {
    Map(ts, t => TabFor(t, target))
  }

  function ActivatedPanels(ps: seq<Panel>, target: string): seq<Panel> {
    Map(ps, p => PanelFor(p, target))
  }

  /** With distinct tab targets, activating the target of tab `i` leaves
      tab `i` the only active and selected tab, and shows exactly the panels
      of that name. */
  lemma ActivateSelectsOne(ts: seq<Tab>, ps: seq<Panel>, i: nat)
    requires i < |ts| && DistinctKeys(ts, TargetOf)
    ensures forall j :: 0 <= j < |ts| ==>
              (ActivatedTabs(ts, ts[i].target)[j].active <==> j == i) &&
              (ActivatedTabs(ts, ts[i].target)[j].ariaSelected == "true" <==> j == i)
    ensures forall j :: 0 <= j < |ps| ==>
              (ActivatedPanels(ps, ts[i].target)[j].hidden <==> ps[j].name != ts[i].target)
  {
    forall j | 0 <= j < |ts| && j != i ensures ts[j].target != ts[i].target {
      if j < i {
        assert TargetOf(ts[j]) != TargetOf(ts[i]);
      } else {
        assert TargetOf(ts[i]) != TargetOf(ts[j]);
      }
    }
  }

  /** Activating the same name twice is the same as activating it once. */
  lemma {:induction false} ActivateIdempotent(ts: seq<Tab>, ps: seq<Panel>, target: string)
    ensures ActivatedTabs(ActivatedTabs(ts, target), target) == ActivatedTabs(ts, target)
    ensures ActivatedPanels(ActivatedPanels(ps, target), target) == ActivatedPanels(ps, target)
  {
    var a := ActivatedTabs(ts, target);
    assert forall j :: 0 <= j < |a| ==> TabFor(a[j], target) == a[j];
    var b := ActivatedPanels(ps, target);
    assert forall j :: 0 <= j < |b| ==> PanelFor(b[j], target) == b[j];
  }

  class DashboardTabs {
    const tabs: array<Tab>
    const panels: array<Panel>

    constructor (tabs: seq<Tab>, panels: seq<Panel>)
      ensures this.tabs[..] == tabs && this.panels[..] == panels
      ensures fresh(this.tabs) && fresh(this.panels)
    {
      this.tabs := new Tab[|tabs|](i requires 0 <= i < |tabs| => tabs[i]);
      this.panels := new Panel[|panels|](i requires 0 <= i < |panels| => panels[i]);
    }

    /** `activateDashboardTab(target)`: every panel, then every tab, is
        updated in place for `target`. */
    method Activate(target: string)
      modifies tabs, panels
      ensures panels[..] == ActivatedPanels(old(panels[..]), target)
      ensures tabs[..] == ActivatedTabs(old(tabs[..]), target)
    {
      for i := 0 to panels.Length
        modifies panels
        invariant forall k :: 0 <= k < i ==> panels[k] == PanelFor(old(panels[k]), target)
        invariant forall k :: i <= k < panels.Length ==> panels[k] == old(panels[k])
      {
        panels[i] := PanelFor(panels[i], target);
      }
      for i := 0 to tabs.Length
        modifies tabs
        invariant forall k :: 0 <= k < i ==> tabs[k] == TabFor(old(tabs[k]), target)
        invariant forall k :: i <= k < tabs.Length ==> tabs[k] == old(tabs[k])
      {
        tabs[i] := TabFor(tabs[i], target);
      }
    }

    /** A click on tab `i`: nothing happens when it is already active;
        otherwise its target is activated. Either way tab `i` ends active. */
    method ClickTab(i: nat)
      requires i < tabs.Length
      modifies tabs, panels
      ensures old(tabs[i].active) ==> tabs[..] == old(tabs[..]) && panels[..] == old(panels[..])
      ensures !old(tabs[i].active) ==>
                tabs[..] == ActivatedTabs(old(tabs[..]), old(tabs[i].target)) &&
                panels[..] == ActivatedPanels(old(panels[..]), old(tabs[i].target))
      ensures tabs[i].active
    {
      if tabs[i].active {
        return;
      }
      Activate(tabs[i].target);
    }

    /** `initDashboardTabs`: with no tab nothing happens; otherwise the
        "feeds" tab is activated. */
    method Init()
      modifies tabs, panels
      ensures tabs.Length == 0 ==> tabs[..] == old(tabs[..]) && panels[..] == old(panels[..])
      ensures tabs.Length > 0 ==>
                tabs[..] == ActivatedTabs(old(tabs[..]), DefaultTab) &&
                panels[..] == ActivatedPanels(old(panels[..]), DefaultTab)
    {
      if tabs.Length == 0 {
        return;
      }
      Activate(DefaultTab);
    }
  }
}
