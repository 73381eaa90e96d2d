/**
 * The page router of the dashboard scripts: sidebar links and page
 * sections carry an `active` class, a link click dispatches on the link's
 * text and `data-target`, and the sidebar toggle flips a class on <body>.
 *
 * Two variants exist.  The dashboard controller
 * (mysite/dashboard/static/js/dashboard.js) routes through `setActivePage`
 * and shows `home-content` at start-up.  The sidebar scripts (sidebar.js
 * and the top-level dashboard.js, which share this code) handle Quit and
 * Support first, mark the clicked link itself, and at load add `active`
 * to `access-requests-content` without clearing anything.
 */
module Router {
  import opened Wrappers
  import opened Seqs

  /** An `<a>` of the sidebar: its `data-target` (None when absent), its text, its href and its class. */
  datatype Link = Link(target: Option<string>, text: string, href: string, active: bool)

  /** A `.page-content` element: its id and whether it carries `active`. */
  datatype Section = Section(id: string, active: bool)

  /** What a click did besides the classes: preventDefault, an alert, a scripted navigation. */
  datatype ClickOutcome = ClickOutcome(defaultPrevented: bool, alert: Option<string>, navigateTo: Option<string>)

  const HomeSection := "home-content"
  const DefaultSection := "access-requests-content"
  const SidebarOpen := "sidebar-open"
  const DashboardSupportNotice := "지원 기능은 현재 준비 중입니다. 조금만 기다려주세요!"
  const SidebarSupportNotice := "도움이 필요하시면 하단의 \"Start\" 버튼을 눌러주세요."

  /** `if (targetId)`: a missing or empty `data-target` is falsy. */
  predicate HasTarget(l: Link) {
    l.target.Some? && l.target.value != ""
  }

  /** For each link, whether its data-target is t. */
  function TargetFlags(ls: seq<Link>, t: string): (flags: seq<bool>)
    ensures |flags| == |ls|
    ensures forall j :: 0 <= j < |ls| ==> flags[j] == (ls[j].target == Some(t))
  {
    seq(|ls|, j requires 0 <= j < |ls| => ls[j].target == Some(t))
  }

  /** For each section, whether its id is t. */
  function IdFlags(ss: seq<Section>, t: string): (flags: seq<bool>)
    ensures |flags| == |ss|
    ensures forall j :: 0 <= j < |ss| ==> flags[j] == (ss[j].id == t)
  {
    seq(|ss|, j requires 0 <= j < |ss| => ss[j].id == t)
  }

  /** `.sidebar a[data-target="t"]`: the first link whose data-target is t. */
  function LinkFor(ls: seq<Link>, t: string): (r: Option<nat>)
    ensures r.None? <==> forall j :: 0 <= j < |ls| ==> ls[j].target != Some(t)
    ensures r.Some? ==> r.value < |ls| && ls[r.value].target == Some(t)
    ensures r.Some? ==> forall j :: 0 <= j < r.value ==> ls[j].target != Some(t)
  {
    var flags := TargetFlags(ls, t);
    var r := FirstTrue(flags);
    assert r.Some? ==> forall j :: 0 <= j < r.value ==> !flags[j];
    r
  }

  /** `document.getElementById(t)` among the sections; the empty id names no element. */
  function SectionFor(ss: seq<Section>, t: string): (r: Option<nat>)
    ensures r.None? <==> t == "" || forall j :: 0 <= j < |ss| ==> ss[j].id != t
    ensures r.Some? ==> r.value < |ss| && ss[r.value].id == t
    ensures r.Some? ==> forall j :: 0 <= j < r.value ==> ss[j].id != t
  {
    if t == "" then None
    else
      var flags := IdFlags(ss, t);
      var r := FirstTrue(flags);
      assert r.Some? ==> forall j :: 0 <= j < r.value ==> !flags[j];
      r
  }

  /** Which link a target selects does not depend on the `active` classes. */
  lemma LinkForIgnoresActive(a: seq<Link>, b: seq<Link>, t: string)
    requires |a| == |b| && forall i :: 0 <= i < |a| ==> a[i].target == b[i].target
    ensures LinkFor(a, t) == LinkFor(b, t)
  {
    assert TargetFlags(a, t) == TargetFlags(b, t);
  }

  /** Which section an id selects does not depend on the `active` classes. */
  lemma SectionForIgnoresActive(a: seq<Section>, b: seq<Section>, t: string)
    requires |a| == |b| && forall i :: 0 <= i < |a| ==> a[i].id == b[i].id
    ensures SectionFor(a, t) == SectionFor(b, t)
  {
    assert IdFlags(a, t) == IdFlags(b, t);
  }

  /** The links after `setActivePage(t)`: the first link targeting t is active, no other. */
  function ActivateLinks(ls: seq<Link>, t: string): (r: seq<Link>)
    ensures |r| == |ls|
    ensures forall i :: 0 <= i < |ls| ==> r[i].(active := false) == ls[i].(active := false)
    ensures LinkFor(ls, t).Some? ==> r[LinkFor(ls, t).value].active
    ensures forall i :: 0 <= i < |r| && r[i].active ==> LinkFor(ls, t) == Some(i)
  {
    seq(|ls|, i requires 0 <= i < |ls| => ls[i].(active := LinkFor(ls, t) == Some(i)))
  }

  /** The sections after activating t: the section with id t is active, no other. */
  function ActivateSections(ss: seq<Section>, t: string): (r: seq<Section>)
    ensures |r| == |ss|
    ensures forall i :: 0 <= i < |ss| ==> r[i].id == ss[i].id
    ensures SectionFor(ss, t).Some? ==> r[SectionFor(ss, t).value].active
    ensures forall i :: 0 <= i < |r| && r[i].active ==> SectionFor(ss, t) == Some(i)
  {
    seq(|ss|, i requires 0 <= i < |ss| => ss[i].(active := SectionFor(ss, t) == Some(i)))
  }

  /** The links after a sidebar-script click on link k: that link is active, no other. */
  function ClickLinks(ls: seq<Link>, k: nat): (r: seq<Link>)
    ensures |r| == |ls|
    ensures forall i :: 0 <= i < |ls| ==> r[i].(active := false) == ls[i].(active := false)
    ensures k < |ls| ==> r[k].active
    ensures forall i :: 0 <= i < |r| && r[i].active ==> i == k
  {
    seq(|ls|, i requires 0 <= i < |ls| => ls[i].(active := i == k))
  }

  /** The links after the load-time default: the first link targeting t gains `active`; nothing is cleared. */
  function MarkLink(ls: seq<Link>, t: string): (r: seq<Link>)
    ensures |r| == |ls|
    ensures forall i :: 0 <= i < |ls| ==> r[i].(active := false) == ls[i].(active := false)
    ensures LinkFor(ls, t).Some? ==> r[LinkFor(ls, t).value].active
    ensures forall i :: 0 <= i < |r| ==> (r[i].active <==> ls[i].active || LinkFor(ls, t) == Some(i))
  {
    seq(|ls|, i requires 0 <= i < |ls| => if LinkFor(ls, t) == Some(i) then ls[i].(active := true) else ls[i])
  }

  /** The sections after the load-time default. */
  function MarkSection(ss: seq<Section>, t: string): (r: seq<Section>)
    ensures |r| == |ss|
    ensures forall i :: 0 <= i < |ss| ==> r[i].id == ss[i].id
    ensures SectionFor(ss, t).Some? ==> r[SectionFor(ss, t).value].active
    ensures forall i :: 0 <= i < |r| ==> (r[i].active <==> ss[i].active || SectionFor(ss, t) == Some(i))
  {
    seq(|ss|, i requires 0 <= i < |ss| => if SectionFor(ss, t) == Some(i) then ss[i].(active := true) else ss[i])
  }

  ghost predicate AtMostOneActiveLink(ls: seq<Link>) {
    forall i, j :: 0 <= i < |ls| && 0 <= j < |ls| && ls[i].active && ls[j].active ==> i == j
  }

  ghost predicate AtMostOneActiveSection(ss: seq<Section>) {
    forall i, j :: 0 <= i < |ss| && 0 <= j < |ss| && ss[i].active && ss[j].active ==> i == j
  }

  ghost predicate NoActiveLink(ls: seq<Link>) {
    forall i :: 0 <= i < |ls| ==> !ls[i].active
  }

  ghost predicate NoActiveSection(ss: seq<Section>) {
    forall i :: 0 <= i < |ss| ==> !ss[i].active
  }

  /** Same elements apart from the `active` class. */
  ghost predicate SameLinksBut(a: seq<Link>, b: seq<Link>) {
    |a| == |b| && forall i :: 0 <= i < |a| ==> a[i].(active := false) == b[i].(active := false)
  }

  ghost predicate SameSectionsBut(a: seq<Section>, b: seq<Section>) {
    |a| == |b| && forall i :: 0 <= i < |a| ==> a[i].id == b[i].id
  }

  /**
   * After `setActivePage(t)` at most one link and one section are active;
   * a link is active exactly when it is the first one targeting t, and a
   * section exactly when it is the first one with id t.  Nothing but the
   * `active` classes changes.
   */
  lemma SetActivePageSelectsFirstMatch(ls: seq<Link>, ss: seq<Section>, t: string)
    ensures AtMostOneActiveLink(ActivateLinks(ls, t)) && AtMostOneActiveSection(ActivateSections(ss, t))
    ensures SameLinksBut(ls, ActivateLinks(ls, t)) && SameSectionsBut(ss, ActivateSections(ss, t))
    ensures forall i :: 0 <= i < |ls| ==>
              (ActivateLinks(ls, t)[i].active <==>
                 ls[i].target == Some(t) && forall j :: 0 <= j < i ==> ls[j].target != Some(t))
    ensures forall i :: 0 <= i < |ss| ==>
              (ActivateSections(ss, t)[i].active <==>
                 t != "" && ss[i].id == t && forall j :: 0 <= j < i ==> ss[j].id != t)
  {
    LinksSelectFirstMatch(ls, t);
    SectionsSelectFirstMatch(ss, t);
  }

  /** The link half of SetActivePageSelectsFirstMatch. */
  lemma LinksSelectFirstMatch(ls: seq<Link>, t: string)
    ensures AtMostOneActiveLink(ActivateLinks(ls, t)) && SameLinksBut(ls, ActivateLinks(ls, t))
    ensures forall i :: 0 <= i < |ls| ==>
              (ActivateLinks(ls, t)[i].active <==>
                 ls[i].target == Some(t) && forall j :: 0 <= j < i ==> ls[j].target != Some(t))
  {
    var r := LinkFor(ls, t);
    forall i | 0 <= i < |ls|
      ensures ActivateLinks(ls, t)[i].active <==>
                ls[i].target == Some(t) && forall j :: 0 <= j < i ==> ls[j].target != Some(t)
    {
      if ls[i].target == Some(t) && forall j :: 0 <= j < i ==> ls[j].target != Some(t) {
        assert r.Some?;
        assert !(r.value < i) && !(i < r.value);
      }
    }
  }

  /** The section half of SetActivePageSelectsFirstMatch. */
  lemma SectionsSelectFirstMatch(ss: seq<Section>, t: string)
    ensures AtMostOneActiveSection(ActivateSections(ss, t)) && SameSectionsBut(ss, ActivateSections(ss, t))
    ensures forall i :: 0 <= i < |ss| ==>
              (ActivateSections(ss, t)[i].active <==>
                 t != "" && ss[i].id == t && forall j :: 0 <= j < i ==> ss[j].id != t)
  {
    var q := SectionFor(ss, t);
    forall i | 0 <= i < |ss|
      ensures ActivateSections(ss, t)[i].active <==>
                t != "" && ss[i].id == t && forall j :: 0 <= j < i ==> ss[j].id != t
    {
      if t != "" && ss[i].id == t && forall j :: 0 <= j < i ==> ss[j].id != t {
        assert q.Some?;
        assert !(q.value < i) && !(i < q.value);
      }
    }
  }

  /** An unknown target leaves no link and no section active. */
  lemma UnknownTargetClearsEverything(ls: seq<Link>, ss: seq<Section>, t: string)
    requires forall j :: 0 <= j < |ls| ==> ls[j].target != Some(t)
    requires forall j :: 0 <= j < |ss| ==> ss[j].id != t
    ensures NoActiveLink(ActivateLinks(ls, t)) && NoActiveSection(ActivateSections(ss, t))
  {
  }

  /** A known target is activated: some link and some section end up active. */
  lemma KnownTargetIsShown(ls: seq<Link>, ss: seq<Section>, t: string, i: nat, k: nat)
    requires i < |ls| && ls[i].target == Some(t)
    requires k < |ss| && ss[k].id == t && t != ""
    ensures exists a :: 0 <= a < |ls| && ActivateLinks(ls, t)[a].active
    ensures exists b :: 0 <= b < |ss| && ActivateSections(ss, t)[b].active
  {
    var a := LinkFor(ls, t).value;
    assert ActivateLinks(ls, t)[a].active;
    var b := SectionFor(ss, t).value;
    assert ActivateSections(ss, t)[b].active;
  }

  /** A sidebar-script click on link k leaves exactly that link active among the links. */
  lemma ClickMarksOnlyTheClickedLink(ls: seq<Link>, k: nat)
    requires k < |ls|
    ensures ClickLinks(ls, k)[k].active && AtMostOneActiveLink(ClickLinks(ls, k))
    ensures SameLinksBut(ls, ClickLinks(ls, k))
  {
  }

  /**
   * The load-time default of the sidebar scripts on a page rendered with
   * nothing active leaves at most the default link and section active.
   */
  lemma DefaultOnCleanPage(ls: seq<Link>, ss: seq<Section>)
    requires NoActiveLink(ls) && NoActiveSection(ss)
    ensures AtMostOneActiveLink(MarkLink(ls, DefaultSection))
    ensures AtMostOneActiveSection(MarkSection(ss, DefaultSection))
    ensures forall i :: 0 <= i < |ls| ==> (MarkLink(ls, DefaultSection)[i].active <==> LinkFor(ls, DefaultSection) == Some(i))
    ensures forall i :: 0 <= i < |ss| ==>
              (MarkSection(ss, DefaultSection)[i].active <==> SectionFor(ss, DefaultSection) == Some(i))
  {
  }

  /**
   * The load-time default clears nothing: a link that was already active
   * stays active beside the default one, so two links can be active.
   */
  lemma DefaultKeepsEarlierActiveLink(ls: seq<Link>, j: nat)
    requires j < |ls| && ls[j].active
    requires LinkFor(ls, DefaultSection).Some? && LinkFor(ls, DefaultSection) != Some(j)
    ensures !AtMostOneActiveLink(MarkLink(ls, DefaultSection))
  {
    var d := LinkFor(ls, DefaultSection).value;
    assert MarkLink(ls, DefaultSection)[d].active && MarkLink(ls, DefaultSection)[j].active;
  }

  /** The click handler of the dashboard controller, as a decision on the clicked link. */
  datatype ControllerAction = Activate(target: string) | SupportNotice | FollowHref

  function ControllerDispatch(l: Link): (a: ControllerAction)
    ensures a.Activate? <==> HasTarget(l)
    ensures a.Activate? ==> a.target == l.target.value
    ensures a == SupportNotice <==> !HasTarget(l) && l.text == "Support"
  {
    if HasTarget(l) then Activate(l.target.value)
    else if l.text == "Support" then SupportNotice
    else FollowHref
  }

  /** The click handler of the sidebar scripts: Quit, then Support, then the target. */
  datatype SidebarAction = ConfirmQuit | SidebarSupport | ActivateClicked(target: string) | DefaultNavigation

  function SidebarDispatch(l: Link): (a: SidebarAction)
    ensures a == ConfirmQuit <==> l.text == "Quit"
    ensures a == SidebarSupport <==> l.text == "Support"
    ensures a.ActivateClicked? <==> HasTarget(l) && l.text != "Quit" && l.text != "Support"
    ensures a.ActivateClicked? ==> a.target == l.target.value
  {
    if l.text == "Quit" then ConfirmQuit
    else if l.text == "Support" then SidebarSupport
    else if HasTarget(l) then ActivateClicked(l.target.value)
    else DefaultNavigation
  }

  /**
   * The two handlers disagree on a Quit link that carries a target: the
   * sidebar scripts ask for confirmation, the dashboard controller
   * switches page.
   */
  lemma QuitWithTargetDiffers(l: Link)
    requires l.text == "Quit" && HasTarget(l)
    ensures SidebarDispatch(l) == ConfirmQuit
    ensures ControllerDispatch(l) == Activate(l.target.value)
  {
  }

  /** `classList.toggle(c)`. */
  function ToggleClass(classes: set<string>, c: string): (r: set<string>)
    ensures c in r <==> c !in classes
    ensures r - {c} == classes - {c}
  {
    if c in classes then classes - {c} else classes + {c}
  }

  /** Two toggles of the same class restore the class list. */
  lemma ToggleTwiceRestores(classes: set<string>, c: string)
    ensures ToggleClass(ToggleClass(classes, c), c) == classes
  {
  }

  class PageRouter {
    var links: array<Link>
    var sections: array<Section>
    var bodyClasses: set<string>

    constructor (ls: seq<Link>, ss: seq<Section>, body: set<string>)
      ensures links[..] == ls && sections[..] == ss && bodyClasses == body
      ensures fresh(links) && fresh(sections)
    {
      links := new Link[|ls|](i requires 0 <= i < |ls| => ls[i]);
      sections := new Section[|ss|](i requires 0 <= i < |ss| => ss[i]);
      bodyClasses := body;
    }

    /** The sidebar toggle button: flips `sidebar-open` on <body>. */
    method ToggleSidebar()
      modifies this
      ensures bodyClasses == ToggleClass(old(bodyClasses), SidebarOpen)
      ensures links == old(links) && sections == old(sections)
    {
      if SidebarOpen in bodyClasses {
        bodyClasses := bodyClasses - {SidebarOpen};
      } else {
        bodyClasses := bodyClasses + {SidebarOpen};
      }
    }

    /** `querySelector('.sidebar a[data-target="t"]')`. */
    method FindLink(t: string) returns (r: Option<nat>)
      ensures r == LinkFor(links[..], t)
    {
      var i := 0;
      while i < links.Length
        invariant 0 <= i <= links.Length
        invariant forall j :: 0 <= j < i ==> links[j].target != Some(t)
      {
        if links[i].target == Some(t) {
          r := Some(i);
          ghost var f := LinkFor(links[..], t);
          assert !(f.value < i) && !(i < f.value);
          return;
        }
        i := i + 1;
      }
      r := None;
    }

    /** `document.getElementById(t)` among the sections. */
    method FindSection(t: string) returns (r: Option<nat>)
      ensures r == SectionFor(sections[..], t)
    {
      if t == "" {
        return None;
      }
      var i := 0;
      while i < sections.Length
        invariant 0 <= i <= sections.Length
        invariant forall j :: 0 <= j < i ==> sections[j].id != t
      {
        if sections[i].id == t {
          r := Some(i);
          ghost var f := SectionFor(sections[..], t);
          assert !(f.value < i) && !(i < f.value);
          return;
        }
        i := i + 1;
      }
      r := None;
    }

    /** Removes `active` from every link. */
    method ClearLinks()
      modifies links
      ensures forall i :: 0 <= i < links.Length ==> links[i] == old(links[i]).(active := false)
    {
      var i := 0;
      while i < links.Length
        invariant 0 <= i <= links.Length
        invariant forall k :: 0 <= k < i ==> links[k] == old(links[k]).(active := false)
        invariant forall k :: i <= k < links.Length ==> links[k] == old(links[k])
      {
        links[i] := links[i].(active := false);
        i := i + 1;
      }
    }

    /** Removes `active` from every section. */
    method ClearSections()
      modifies sections
      ensures forall i :: 0 <= i < sections.Length ==> sections[i] == old(sections[i]).(active := false)
    {
      var i := 0;
      while i < sections.Length
        invariant 0 <= i <= sections.Length
        invariant forall k :: 0 <= k < i ==> sections[k] == old(sections[k]).(active := false)
        invariant forall k :: i <= k < sections.Length ==> sections[k] == old(sections[k])
      {
        sections[i] := sections[i].(active := false);
        i := i + 1;
      }
    }

    /** The link half of `setActivePage(t)`: clear every link, then mark the one t selects. */
    method ActivateLink(t: string)
      modifies links
      ensures links[..] == ActivateLinks(old(links[..]), t)
    {
      ClearLinks();
      LinkForIgnoresActive(links[..], old(links[..]), t);
      var activeLink := FindLink(t);
      if activeLink.Some? {
        links[activeLink.value] := links[activeLink.value].(active := true);
      }
      assert forall i :: 0 <= i < links.Length ==> links[i] == ActivateLinks(old(links[..]), t)[i];
    }

    /** The section half of `setActivePage(t)`. */
    method ActivateSection(t: string)
      modifies sections
      ensures sections[..] == ActivateSections(old(sections[..]), t)
    {
      ClearSections();
      SectionForIgnoresActive(sections[..], old(sections[..]), t);
      var activeContent := FindSection(t);
      if activeContent.Some? {
        sections[activeContent.value] := sections[activeContent.value].(active := true);
      }
      assert forall i :: 0 <= i < sections.Length ==> sections[i] == ActivateSections(old(sections[..]), t)[i];
    }

    /**
     * `setActivePage(t)` of the dashboard controller.  Links and sections
     * are separate arrays, so clearing and marking each in turn has the
     * effect of the script's clear-both-then-mark-both.
     */
    method SetActivePage(t: string)
      modifies links, sections
      ensures links[..] == ActivateLinks(old(links[..]), t)
      ensures sections[..] == ActivateSections(old(sections[..]), t)
    {
      ActivateLink(t);
      ActivateSection(t);
    }

    /** `handleLinkClick` of the dashboard controller; the clicked link may also be a quick-link card. */
    method HandleLinkClick(link: Link) returns (out: ClickOutcome)
      modifies links, sections
      ensures ControllerDispatch(link).Activate? ==>
                && out == ClickOutcome(true, None, None)
                && links[..] == ActivateLinks(old(links[..]), link.target.value)
                && sections[..] == ActivateSections(old(sections[..]), link.target.value)
      ensures ControllerDispatch(link) == SupportNotice ==>
                && out == ClickOutcome(true, Some(DashboardSupportNotice), None)
                && links[..] == old(links[..]) && sections[..] == old(sections[..])
      ensures ControllerDispatch(link) == FollowHref ==>
                && out == ClickOutcome(false, None, None)
                && links[..] == old(links[..]) && sections[..] == old(sections[..])
    {
      if HasTarget(link) {
        SetActivePage(link.target.value);
        out := ClickOutcome(true, None, None);
      } else if link.text == "Support" {
        out := ClickOutcome(true, Some(DashboardSupportNotice), None);
      } else {
        out := ClickOutcome(false, None, None);
      }
    }

    /** The click handler of the sidebar scripts on link k; `confirmed` is the answer to the logout prompt. */
    method HandleSidebarClick(k: nat, confirmed: bool) returns (out: ClickOutcome)
      requires k < links.Length
      modifies links, sections
      ensures SidebarDispatch(old(links[k])) == ConfirmQuit ==>
                && out == ClickOutcome(true, None, if confirmed then Some(old(links[k]).href) else None)
                && links[..] == old(links[..]) && sections[..] == old(sections[..])
      ensures SidebarDispatch(old(links[k])) == SidebarSupport ==>
                && out == ClickOutcome(true, Some(SidebarSupportNotice), None)
                && links[..] == old(links[..]) && sections[..] == old(sections[..])
      ensures SidebarDispatch(old(links[k])).ActivateClicked? ==>
                && out == ClickOutcome(true, None, None)
                && links[..] == ClickLinks(old(links[..]), k)
                && sections[..] == ActivateSections(old(sections[..]), old(links[k]).target.value)
      ensures SidebarDispatch(old(links[k])) == DefaultNavigation ==>
                && out == ClickOutcome(false, None, None)
                && links[..] == old(links[..]) && sections[..] == old(sections[..])
    {
      var link := links[k];
      if link.text == "Quit" {
        out := ClickOutcome(true, None, if confirmed then Some(link.href) else None);
        return;
      }
      if link.text == "Support" {
        out := ClickOutcome(true, Some(SidebarSupportNotice), None);
        return;
      }
      if HasTarget(link) {
        var targetId := link.target.value;
        ClearLinks();
        ClearSections();
        links[k] := links[k].(active := true);
        SectionForIgnoresActive(sections[..], old(sections[..]), targetId);
        var targetPage := FindSection(targetId);
        if targetPage.Some? {
          sections[targetPage.value] := sections[targetPage.value].(active := true);
        }
        out := ClickOutcome(true, None, None);
      } else {
        out := ClickOutcome(false, None, None);
      }
    }

    /** The link half of the load-time default: mark the first link targeting t, clear nothing. */
    method MarkFirstLink(t: string)
      modifies links
      ensures links[..] == MarkLink(old(links[..]), t)
    {
      var defaultActiveLink := FindLink(t);
      if defaultActiveLink.Some? {
        links[defaultActiveLink.value] := links[defaultActiveLink.value].(active := true);
      }
    }

    /** The section half of the load-time default. */
    method MarkFirstSection(t: string)
      modifies sections
      ensures sections[..] == MarkSection(old(sections[..]), t)
    {
      var defaultPage := FindSection(t);
      if defaultPage.Some? {
        sections[defaultPage.value] := sections[defaultPage.value].(active := true);
      }
    }

    /**
     * The load-time default of the sidebar scripts: mark
     * `access-requests-content`, clear nothing.  Links and sections are
     * separate arrays, so marking one and then the other has the effect
     * of the script's find-both-then-mark-both.
     */
    method ActivateDefaultPage()
      modifies links, sections
      ensures links[..] == MarkLink(old(links[..]), DefaultSection)
      ensures sections[..] == MarkSection(old(sections[..]), DefaultSection)
    {
      MarkFirstLink(DefaultSection);
      MarkFirstSection(DefaultSection);
    }
  }
}
