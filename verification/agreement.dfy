/** How the two loaders relate. They read the marker the same way and look
    it up in the same four names; from the page-load state they leave the
    same tablet, desktop and wide flags and start the same loads for those
    three categories, though in opposite orders, and only the cascading
    loader ever loads `device-smartphone` fragments. */
module Agreement {
  import opened PageModel
  import CascadeLoader
  import SwitchLoader

  /** Both scripts list the same category names in the same order. */
  lemma SameCategoryNames()
    ensures CascadeLoader.Names == SwitchLoader.DeviceCategorySequence
    ensures forall k :: 0 <= k < |CascadeLoader.Ladder| ==>
      CascadeLoader.Ladder[k].name == SwitchLoader.DeviceCategorySequence[k]
  {
    CascadeLoader.NamesDistinct();
  }

  /** The attributes the three `switch` loaders query are the names of
      rungs 1 to 3. */
  lemma KeysAreRungNames()
    ensures CascadeLoader.Ladder[0].name == "device-smartphone"
    ensures CascadeLoader.Ladder[1].name == SwitchLoader.TabletKey
    ensures CascadeLoader.Ladder[2].name == SwitchLoader.DesktopKey
    ensures CascadeLoader.Ladder[3].name == SwitchLoader.WideKey
  {
  }

  /** The rung `getDevice` finds is the key `indexOf` returns, and the
      cascading loader falls back to `device-wide` exactly when the `switch`
      takes its `default` branch. */
  lemma SameDetection(content: Option<string>)
    ensures CascadeLoader.Detect(content).None? <==>
      (SwitchLoader.CategoryKey(content).None? || SwitchLoader.CategoryKey(content).value == -1)
    ensures CascadeLoader.Detect(content).Some? ==>
      SwitchLoader.CategoryKey(content) == Some(CascadeLoader.Detect(content).value as int)
    ensures SwitchLoader.Level(content) ==
      if CascadeLoader.Detect(content).None? then 3 else CascadeLoader.Detect(content).value
  {
    SameCategoryNames();
  }

  /** The loads of rungs `n` down to 0, as a multiset. */
  lemma DownContents(page: seq<Element>, n: nat)
    requires n < |CascadeLoader.Ladder|
    ensures multiset(CascadeLoader.Down(page, n, 0))
         == multiset(Bound(page, CascadeLoader.Ladder[0].name))
          + multiset(if 1 <= n then Bound(page, CascadeLoader.Ladder[1].name) else [])
          + multiset(if 2 <= n then Bound(page, CascadeLoader.Ladder[2].name) else [])
          + multiset(if 3 <= n then Bound(page, CascadeLoader.Ladder[3].name) else [])
  {
    var none: seq<Load> := [];
    var d0 := CascadeLoader.Down(page, 0, 0);
    assert CascadeLoader.Down(page, -1, 0) == none;
    assert d0 == Bound(page, CascadeLoader.Ladder[0].name) + none;
    if n >= 1 {
      var d1 := CascadeLoader.Down(page, 1, 0);
      assert d1 == Bound(page, CascadeLoader.Ladder[1].name) + d0;
      if n >= 2 {
        var d2 := CascadeLoader.Down(page, 2, 0);
        assert d2 == Bound(page, CascadeLoader.Ladder[2].name) + d1;
        if n == 3 {
          assert CascadeLoader.Down(page, 3, 0) == Bound(page, CascadeLoader.Ladder[3].name) + d2;
        }
      }
    }
  }

  /** From the page-load state, cascading from rung `n` (nothing for
      rung 0) sets the same tablet, desktop and wide flags as running the
      `switch` up to level `n`. */
  lemma FreshFlagsAtRung(page: seq<Element>, n: nat)
    requires n < |CascadeLoader.Ladder|
    ensures var c := if n == 0 then CascadeLoader.Outcome([false, false, false, false], [])
                     else CascadeLoader.Cascade(page, [false, false, false, false], n);
      && c.flags[1] == (1 <= n && |Bound(page, SwitchLoader.TabletKey)| > 0)
      && c.flags[2] == (2 <= n && |Bound(page, SwitchLoader.DesktopKey)| > 0)
      && c.flags[3] == (3 <= n && |Bound(page, SwitchLoader.WideKey)| > 0)
  {
    if n > 0 {
      KeysAreRungNames();
      CascadeLoader.CascadeFresh(page, n);
    }
  }

  /** ... and starts the same loads, apart from order, plus those of the
      smartphone rung. */
  lemma FreshLoadsAtRung(page: seq<Element>, n: nat)
    requires n < |CascadeLoader.Ladder|
    ensures var c := if n == 0 then CascadeLoader.Outcome([false, false, false, false], [])
                     else CascadeLoader.Cascade(page, [false, false, false, false], n);
      multiset(c.loads)
      == multiset(SwitchLoader.LoadsIf(1 <= n, false, page, SwitchLoader.TabletKey)
                  + SwitchLoader.LoadsIf(2 <= n, false, page, SwitchLoader.DesktopKey)
                  + SwitchLoader.LoadsIf(3 <= n, false, page, SwitchLoader.WideKey))
         + if n == 0 then multiset{} else multiset(Bound(page, "device-smartphone"))
  {
    var t := SwitchLoader.LoadsIf(1 <= n, false, page, SwitchLoader.TabletKey);
    var d := SwitchLoader.LoadsIf(2 <= n, false, page, SwitchLoader.DesktopKey);
    var w := SwitchLoader.LoadsIf(3 <= n, false, page, SwitchLoader.WideKey);
    assert multiset(t + d + w) == multiset(t) + multiset(d) + multiset(w);
    if n > 0 {
      CascadeLoader.CascadeFresh(page, n);
      DownContents(page, n);
      KeysAreRungNames();
    } else {
      assert t + d + w == [];
    }
  }

  /** From the page-load state, for every marker: the two loaders leave the
      same tablet, desktop and wide flags, and start the same loads apart from
      order, except that the cascading loader also loads the smartphone
      fragments whenever the marker is not `device-smartphone`. */
  lemma FreshAgreement(page: seq<Element>, content: Option<string>)
    ensures var c := CascadeLoader.Dispatch(page, [false, false, false, false], content);
      var s := SwitchLoader.Dispatch(page, SwitchLoader.Flags(false, false, false), content);
      && c.flags[1] == s.flags.tablet
      && c.flags[2] == s.flags.desktop
      && c.flags[3] == s.flags.wide
      && multiset(c.loads) == multiset(s.loads)
           + if SwitchLoader.Level(content) == 0 then multiset{}
             else multiset(Bound(page, "device-smartphone"))
  {
    SameDetection(content);
    assert SwitchLoader.Level(content) == CascadeLoader.DispatchRung(content);
    CascadeLoader.DispatchByRung(page, [false, false, false, false], content);
    SwitchLoader.DispatchCharacterised(page, SwitchLoader.Flags(false, false, false), content);
    FreshFlagsAtRung(page, SwitchLoader.Level(content));
    FreshLoadsAtRung(page, SwitchLoader.Level(content));
  }

  /** A page with one element bound to `device-tablet`, then one bound to
      `device-desktop`. */
  function ExamplePage(): seq<Element>
  {
    [Element(map["device-tablet" := "/f/tablet.html"]),
     Element(map["device-desktop" := "/f/desktop.html"])]
  }

  /** What each `.each` loads on the example page. */
  lemma ExampleBindings()
    ensures Bound(ExamplePage(), "device-smartphone") == []
    ensures Bound(ExamplePage(), "device-tablet") == [Load(0, "/f/tablet.html")]
    ensures Bound(ExamplePage(), "device-desktop") == [Load(1, "/f/desktop.html")]
    ensures Bound(ExamplePage(), "device-wide") == []
  {
    var page := ExamplePage();
    assert |"device-smartphone"| == 17 && |"device-tablet"| == 13;
    assert |"device-desktop"| == 14 && |"device-wide"| == 11;
    assert "device-smartphone" !in page[0].data && "device-smartphone" !in page[1].data;
    assert "device-wide" !in page[0].data && "device-wide" !in page[1].data;
    assert "device-tablet" !in page[1].data && "device-desktop" !in page[0].data;
    assert BoundUpTo(page, "device-tablet", 1) == [Load(0, "/f/tablet.html")];
    assert BoundUpTo(page, "device-desktop", 1) == [];
    assert BoundUpTo(page, "device-smartphone", 1) == [];
    assert BoundUpTo(page, "device-wide", 1) == [];
  }

  /** Both loaders read the marker `device-desktop` as rung and key 2. */
  lemma DesktopMarkerIsTwo()
    ensures CascadeLoader.DispatchRung(Some("device-desktop")) == 2
    ensures SwitchLoader.CategoryKey(Some("device-desktop")) == Some(2)
  {
    DesktopRungIsTwo();
    SameDetection(Some("device-desktop"));
  }

  /** `getDevice` finds `device-desktop` on rung 2. */
  lemma DesktopRungIsTwo()
    ensures CascadeLoader.Detect(Some("device-desktop")) == Some(2)
  {
    CascadeLoader.DetectRungName(2);
    assert CascadeLoader.Ladder[2].name == "device-desktop";
  }

  /** On the example page with the marker `device-desktop`, the cascading
      loader loads the desktop fragment, then the tablet one, and visits
      smartphone without loading anything there. */
  lemma CascadeDesktopExample()
    ensures CascadeLoader.Dispatch(ExamplePage(), [false, false, false, false], Some("device-desktop"))
         == CascadeLoader.Outcome([false, true, true, false],
                                  [Load(1, "/f/desktop.html"), Load(0, "/f/tablet.html")])
  {
    var page := ExamplePage();
    DesktopMarkerIsTwo();
    CascadeLoader.DispatchByRung(page, [false, false, false, false], Some("device-desktop"));
    CascadeExampleFromDesktop();
  }

  /** `loadFragment("device-desktop")` on the example page, from page load. */
  lemma CascadeExampleFromDesktop()
    ensures CascadeLoader.Cascade(ExamplePage(), [false, false, false, false], 2)
         == CascadeLoader.Outcome([false, true, true, false],
                                  [Load(1, "/f/desktop.html"), Load(0, "/f/tablet.html")])
  {
    var page := ExamplePage();
    ExampleBindings();
    KeysAreRungNames();
    var r := CascadeLoader.Cascade(page, [false, false, false, false], 2);
    CascadeLoader.CascadeFresh(page, 2);
    assert r.flags[0] == false && r.flags[1] == true;
    assert r.flags[2] == true && r.flags[3] == false;
    var none: seq<Load> := [];
    var d0 := CascadeLoader.Down(page, 0, 0);
    var d1 := CascadeLoader.Down(page, 1, 0);
    assert CascadeLoader.Down(page, -1, 0) == none;
    assert d0 == none + none;
    assert d1 == [Load(0, "/f/tablet.html")] + d0;
    assert CascadeLoader.Down(page, 2, 0) == [Load(1, "/f/desktop.html")] + d1;
  }

  /** On the same page and marker the `switch` loads the tablet fragment,
      then the desktop one. */
  lemma SwitchDesktopExample()
    ensures SwitchLoader.Dispatch(ExamplePage(), SwitchLoader.Flags(false, false, false), Some("device-desktop"))
         == SwitchLoader.Outcome(SwitchLoader.Flags(true, true, false),
                                 [Load(0, "/f/tablet.html"), Load(1, "/f/desktop.html")])
  {
    var page := ExamplePage();
    var clear := SwitchLoader.Flags(false, false, false);
    DesktopMarkerIsTwo();
    ExampleBindings();
    SwitchLoader.SwitchCharacterised(page, clear, Some(2));
    var t := SwitchLoader.LoadsIf(true, false, page, SwitchLoader.TabletKey);
    var d := SwitchLoader.LoadsIf(true, false, page, SwitchLoader.DesktopKey);
    var w := SwitchLoader.LoadsIf(false, false, page, SwitchLoader.WideKey);
    assert t == [Load(0, "/f/tablet.html")] && d == [Load(1, "/f/desktop.html")] && w == [];
    var r := SwitchLoader.Switch(page, SwitchLoader.Outcome(clear, []), Some(2));
    assert r.loads == t + d + w;
    assert r.flags == SwitchLoader.Flags(true, true, false);
  }
}
