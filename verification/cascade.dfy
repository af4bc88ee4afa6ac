/** The loader of js/src/jquery.responsivefragments.js: a four-rung ladder of
    device objects, each with a mutable `loaded` flag and a `parent` name, a
    load-once `loadFragment` that cascades along parents, and the dispatcher
    `checkDeviceCategory` that reads the CSS marker. */
module CascadeLoader {
  import opened PageModel

  /** The fixed part of one entry of the `devices` array. */
  datatype Rung = Rung(name: string, parent: Option<string>)

  /** The `devices` array, smallest viewport first. */
  const Ladder: seq<Rung> := [
    Rung("device-smartphone", None),
    Rung("device-tablet", Some("device-smartphone")),
    Rung("device-desktop", Some("device-tablet")),
    Rung("device-wide", Some("device-desktop"))
  ]

  /** The names of the rungs, in ladder order. */
  const Names: seq<string> := [Ladder[0].name, Ladder[1].name, Ladder[2].name, Ladder[3].name]

  predicate OnLadder(n: string)
  {
    n in Names
  }

  /** The position on the ladder of a name that is on it. */
  function RungOf(n: string): (i: nat)
    requires OnLadder(n)
    ensures i < |Ladder| && Ladder[i].name == n
  {
    NamesDistinct();
    IndexOf(Names, n)
  }

  /** `Names` lists the rung names, which are pairwise distinct. */
  lemma NamesDistinct()
    ensures |Ladder| == |Names| == 4
    ensures forall k :: 0 <= k < |Ladder| ==> Names[k] == Ladder[k].name
    ensures forall j, k :: 0 <= j < k < |Ladder| ==> Ladder[j].name != Ladder[k].name
  {
    assert |Ladder[0].name| == 17;
    assert |Ladder[1].name| == 13;
    assert |Ladder[2].name| == 14;
    assert |Ladder[3].name| == 11;
  }

  /** Each rung's name finds that rung. */
  lemma RungOfName()
    ensures forall k :: 0 <= k < |Ladder| ==> OnLadder(Ladder[k].name) && RungOf(Ladder[k].name) == k
  {
    NamesDistinct();
    forall k | 0 <= k < |Ladder|
      ensures OnLadder(Ladder[k].name) && RungOf(Ladder[k].name) == k
    {
      var r := IndexOf(Names, Names[k]);
      assert Names[r] == Names[k];
    }
  }

  /** Each rung above the smallest has the rung below it as parent. */
  lemma ParentsDescend()
    ensures Ladder[0].parent == None
    ensures forall k :: 0 < k < |Ladder| ==> Ladder[k].parent == Some(Ladder[k - 1].name)
  {
  }

  /** No rung name holds a quote character. */
  lemma NamesUnquoted()
    ensures forall k :: 0 <= k < |Ladder| ==> '"' !in Ladder[k].name
  {
    Unquoted(Ladder[0].name);
    Unquoted(Ladder[1].name);
    Unquoted(Ladder[2].name);
    Unquoted(Ladder[3].name);
  }

  /** Four rungs with distinct names; every rung but the smallest has the
      rung just below it as parent, so following parents strictly descends. */
  lemma LadderWellFormed()
    ensures |Ladder| == |Names| == 4
    ensures forall j, k :: 0 <= j < k < |Ladder| ==> Ladder[j].name != Ladder[k].name
    ensures Ladder[0].parent == None
    ensures forall k :: 0 < k < |Ladder| ==> Ladder[k].parent == Some(Ladder[k - 1].name)
    ensures forall k :: 0 <= k < |Ladder| ==> OnLadder(Ladder[k].name) && RungOf(Ladder[k].name) == k
    ensures forall k :: 0 <= k < |Ladder| ==> '"' !in Ladder[k].name
  {
    NamesDistinct();
    RungOfName();
    ParentsDescend();
    NamesUnquoted();
  }

  /** The parent of rung `i` is the name of rung `i - 1`, and the smallest
      rung has none. */
  lemma ParentIsRungBelow(i: nat)
    requires i < |Ladder|
    ensures i == 0 <==> Ladder[i].parent.None?
    ensures i > 0 ==> OnLadder(Ladder[i].parent.value) && RungOf(Ladder[i].parent.value) == i - 1
  {
    LadderWellFormed();
  }

  /** `device-wide`, the dispatcher's fallback, is the top rung. */
  lemma WideIsTopRung()
    ensures OnLadder("device-wide") && RungOf("device-wide") == |Ladder| - 1
  {
    NamesDistinct();
    assert Names[3] == "device-wide";
  }

  /** `device-smartphone`, the name the dispatcher skips, is the bottom rung. */
  lemma SmartphoneIsBottomRung(n: string)
    requires OnLadder(n)
    ensures n == "device-smartphone" <==> RungOf(n) == 0
  {
    NamesDistinct();
    assert Names[0] == "device-smartphone";
  }

  /** The new flags and the loads started by one call. */
  datatype Outcome = Outcome(flags: seq<bool>, loads: seq<Load>)

  /** `loadFragment` on rung `i` (lines 50-63): nothing when the rung is
      loaded; otherwise one `.each` over the rung's elements, which sets the
      flag only if it visits an element, then the same on the parent, which
      is rung `i - 1` (`ParentIsRungBelow`). */
  function Cascade(page: seq<Element>, flags: seq<bool>, i: nat): (r: Outcome)
    requires |flags| == |Ladder| && i < |Ladder|
    ensures |r.flags| == |Ladder|
    ensures forall k :: 0 <= k < |Ladder| && flags[k] ==> r.flags[k]
    ensures forall k :: i < k < |Ladder| ==> r.flags[k] == flags[k]
    decreases i
  {
    if flags[i] then Outcome(flags, [])
    else
      var b := Bound(page, Ladder[i].name);
      var marked := flags[i := |b| > 0];
      match Ladder[i].parent
      case None => Outcome(marked, b)
      case Some(_) =>
        ParentIsRungBelow(i);
        var rest := Cascade(page, marked, i - 1);
        Outcome(rest.flags, b + rest.loads)
  }

  /** The highest rung at or below `i` that is already loaded, or -1. */
  function Stop(flags: seq<bool>, i: int): (s: int)
    requires -1 <= i < |flags|
    ensures -1 <= s <= i
    ensures s == -1 || flags[s]
    ensures forall j :: s < j <= i ==> !flags[j]
    decreases i + 1
  {
    if i < 0 then -1 else if flags[i] then i else Stop(flags, i - 1)
  }

  /** The loads of the rungs `hi`, `hi - 1`, ..., `lo`, in that order. */
  function Down(page: seq<Element>, hi: int, lo: nat): (r: seq<Load>)
    requires -1 <= hi < |Ladder|
    decreases hi + 1
  {
    if hi < lo then [] else Bound(page, Ladder[hi].name) + Down(page, hi - 1, lo)
  }

  /** `Stop` depends only on the flags at or below `i`. */
  lemma {:induction false} StopAgrees(f: seq<bool>, g: seq<bool>, i: int)
    requires -1 <= i < |f| == |g|
    requires forall j :: 0 <= j <= i ==> f[j] == g[j]
    ensures Stop(f, i) == Stop(g, i)
    decreases i + 1
  {
    if i >= 0 && !f[i] {
      StopAgrees(f, g, i - 1);
    }
  }

  /** What `loadFragment` on rung `i` does, in closed form. With `s` the
      highest loaded rung at or below `i`: the rungs `i` down to `s + 1` are
      visited, each rung's flag ends true exactly when it was true or it was
      visited and has a bound element, and the loads are those of the visited
      rungs, widest first. A rung without bound elements stays unloaded. */
  lemma {:induction false} CascadeCharacterised(page: seq<Element>, flags: seq<bool>, i: nat)
    requires |flags| == |Ladder| && i < |Ladder|
    ensures var r := Cascade(page, flags, i); var s := Stop(flags, i);
      && (forall k :: 0 <= k < |Ladder| ==>
            r.flags[k] == (flags[k] || (s < k <= i && |Bound(page, Ladder[k].name)| > 0)))
      && r.loads == Down(page, i, s + 1)
  {
    CascadeFlags(page, flags, i);
    CascadeLoads(page, flags, i);
  }

  /** One step of `loadFragment` on an unloaded rung: its own `.each`, which
      leaves the flags `marked` (given rung by rung), then the parent, which
      is rung `i - 1`, from those flags. */
  lemma CascadeUnfold(page: seq<Element>, flags: seq<bool>, marked: seq<bool>, i: nat)
    requires |flags| == |marked| == |Ladder| && i < |Ladder| && !flags[i]
    requires forall k :: 0 <= k < |Ladder| ==>
      marked[k] == if k == i then |Bound(page, Ladder[i].name)| > 0 else flags[k]
    ensures Cascade(page, flags, i)
      == if i == 0 then Outcome(marked, Bound(page, Ladder[i].name))
         else var rest := Cascade(page, marked, i - 1);
           Outcome(rest.flags, Bound(page, Ladder[i].name) + rest.loads)
  {
    UpdateAt(flags, marked, i, |Bound(page, Ladder[i].name)| > 0);
    ParentIsRungBelow(i);
  }

  /** A sequence that agrees with `flags` except at `i`, where it holds `v`,
      is `flags[i := v]`. */
  lemma UpdateAt(flags: seq<bool>, marked: seq<bool>, i: nat, v: bool)
    requires |flags| == |marked| && i < |flags|
    requires forall k :: 0 <= k < |flags| ==> marked[k] == if k == i then v else flags[k]
    ensures marked == flags[i := v]
  {
  }

  /** The flags half of `CascadeCharacterised`. */
  lemma {:induction false} CascadeFlags(page: seq<Element>, flags: seq<bool>, i: nat)
    requires |flags| == |Ladder| && i < |Ladder|
    ensures var r := Cascade(page, flags, i); var s := Stop(flags, i);
      forall k :: 0 <= k < |Ladder| ==>
        r.flags[k] == (flags[k] || (s < k <= i && |Bound(page, Ladder[k].name)| > 0))
    decreases i
  {
    var s := Stop(flags, i);
    if !flags[i] {
      var marked := flags[i := |Bound(page, Ladder[i].name)| > 0];
      CascadeUnfold(page, flags, marked, i);
      if i > 0 {
        var rest := Cascade(page, marked, i - 1);
        CascadeFlags(page, marked, i - 1);
        StopAgrees(flags, marked, i - 1);
        assert s == Stop(marked, i - 1);
        forall k | 0 <= k < |Ladder|
          ensures rest.flags[k] == (flags[k] || (s < k <= i && |Bound(page, Ladder[k].name)| > 0))
        {
          assert rest.flags[k] == (marked[k] || (s < k <= i - 1 && |Bound(page, Ladder[k].name)| > 0));
        }
      }
    }
  }

  /** The loads half of `CascadeCharacterised`. */
  lemma {:induction false} CascadeLoads(page: seq<Element>, flags: seq<bool>, i: nat)
    requires |flags| == |Ladder| && i < |Ladder|
    ensures Cascade(page, flags, i).loads == Down(page, i, Stop(flags, i) + 1)
    decreases i
  {
    if flags[i] {
      assert Down(page, i, i + 1) == [];
    } else if i == 0 {
      CascadeUnfold(page, flags, flags[0 := |Bound(page, Ladder[0].name)| > 0], 0);
      assert Down(page, 0, 0) == Bound(page, Ladder[0].name) + Down(page, -1, 0);
    } else {
      CascadeLoads(page, flags[i := |Bound(page, Ladder[i].name)| > 0], i - 1);
      CascadeUnfold(page, flags, flags[i := |Bound(page, Ladder[i].name)| > 0], i);
      StopPastUnloaded(page, flags, i);
      DownStep(page, Stop(flags, i), i);
    }
  }

  /** Marking an unloaded rung does not change where the cascade below it
      stops. */
  lemma StopPastUnloaded(page: seq<Element>, flags: seq<bool>, i: nat)
    requires |flags| == |Ladder| && 0 < i < |Ladder| && !flags[i]
    ensures Stop(flags, i) == Stop(flags[i := |Bound(page, Ladder[i].name)| > 0], i - 1)
  {
    StopAgrees(flags, flags[i := |Bound(page, Ladder[i].name)| > 0], i - 1);
  }

  /** `Down` from a rung above the stop point starts with that rung's loads. */
  lemma DownStep(page: seq<Element>, s: int, i: nat)
    requires -1 <= s < i < |Ladder|
    ensures Down(page, i, s + 1) == Bound(page, Ladder[i].name) + Down(page, i - 1, s + 1)
  {
  }

  /** On a loaded rung `loadFragment` starts nothing, changes no flag and does
      not go on to the parent. */
  lemma CascadeLoadedIsNoOp(page: seq<Element>, flags: seq<bool>, i: nat)
    requires |flags| == |Ladder| && i < |Ladder| && flags[i]
    ensures Cascade(page, flags, i) == Outcome(flags, [])
  {
  }

  /** From a fresh state, every rung at or below `i` is visited: the flags
      of those with a bound element become true and their loads are started,
      rung `i` first and smartphone last. */
  lemma CascadeFresh(page: seq<Element>, i: nat)
    requires i < |Ladder|
    ensures var r := Cascade(page, [false, false, false, false], i);
      && r.loads == Down(page, i, 0)
      && forall k :: 0 <= k < |Ladder| ==>
           r.flags[k] == (k <= i && |Bound(page, Ladder[k].name)| > 0)
  {
    var unloaded := [false, false, false, false];
    LadderWellFormed();
    CascadeCharacterised(page, unloaded, i);
    assert Stop(unloaded, i) == -1;
  }

  /** `loadFragment("device-wide")` on a fresh state where every rung has a
      bound element loads wide, desktop, tablet and smartphone, once each and
      in that order, and sets all four flags. */
  lemma CascadeFromWide(page: seq<Element>)
    requires forall k :: 0 <= k < |Ladder| ==> |Bound(page, Ladder[k].name)| > 0
    ensures Cascade(page, [false, false, false, false], 3) == Outcome(
      [true, true, true, true],
      Bound(page, "device-wide") + Bound(page, "device-desktop")
        + Bound(page, "device-tablet") + Bound(page, "device-smartphone"))
  {
    var r := Cascade(page, [false, false, false, false], 3);
    CascadeFresh(page, 3);
    assert r.flags[0] && r.flags[1] && r.flags[2] && r.flags[3];
    var b0, b1 := Bound(page, Ladder[0].name), Bound(page, Ladder[1].name);
    var b2, b3 := Bound(page, Ladder[2].name), Bound(page, Ladder[3].name);
    var none: seq<Load> := [];
    assert Down(page, -1, 0) == none;
    assert Down(page, 0, 0) == b0 + none == b0;
    assert Down(page, 1, 0) == b1 + b0;
    assert Down(page, 2, 0) == b2 + (b1 + b0);
    assert Down(page, 3, 0) == b3 + (b2 + (b1 + b0));
    assert b3 + (b2 + (b1 + b0)) == b3 + b2 + b1 + b0;
  }

  /** A second `loadFragment` on the same rung and the same page starts no
      load and changes no flag. */
  lemma {:induction false} CascadeIdempotent(page: seq<Element>, flags: seq<bool>, i: nat)
    requires |flags| == |Ladder| && i < |Ladder|
    ensures var g := Cascade(page, flags, i).flags;
      Cascade(page, g, i) == Outcome(g, [])
    decreases i
  {
    ParentIsRungBelow(i);
    if !flags[i] {
      var b := Bound(page, Ladder[i].name);
      var marked := flags[i := |b| > 0];
      var g := Cascade(page, flags, i).flags;
      if i > 0 {
        assert g == Cascade(page, marked, i - 1).flags;
        if |b| == 0 {
          CascadeIdempotent(page, marked, i - 1);
          assert g[i := false] == g;
        }
      }
    }
  }

  /** The rung `getDevice` finds for the marker read at line 33, after the
      two quote strips: None when the read threw or no rung has that name. */
  function Detect(content: Option<string>): (r: Option<nat>)
    ensures r.Some? ==> content.Some? && r.value < |Ladder| && Ladder[r.value].name == Normalise(content.value)
    ensures r.None? <==> content.None? || !OnLadder(Normalise(content.value))
  {
    match content
    case None => None
    case Some(c) =>
      var n := Normalise(c);
      if OnLadder(n) then Some(RungOf(n)) else None
  }

  /** `checkDeviceCategory` (lines 30-47): the widest rung when nothing was
      detected, nothing for smartphone, the detected rung otherwise. */
  function Dispatch(page: seq<Element>, flags: seq<bool>, content: Option<string>): (r: Outcome)
    requires |flags| == |Ladder|
    ensures |r.flags| == |Ladder|
  {
    match Detect(content)
    case None => Cascade(page, flags, 3)
    case Some(i) =>
      if Ladder[i].name == "device-smartphone" then Outcome(flags, [])
      else Cascade(page, flags, i)
  }

  /** The rung the dispatcher cascades from: the detected rung, or the widest
      when nothing was detected; 0 stands for "nothing is loaded". */
  function DispatchRung(content: Option<string>): (i: nat)
  {
    match Detect(content)
    case None => 3
    case Some(i) => i
  }

  /** The dispatcher loads nothing for the smartphone rung and otherwise
      cascades from `DispatchRung`. */
  lemma DispatchByRung(page: seq<Element>, flags: seq<bool>, content: Option<string>)
    requires |flags| == |Ladder|
    ensures DispatchRung(content) < |Ladder|
    ensures Dispatch(page, flags, content)
         == if DispatchRung(content) == 0 then Outcome(flags, [])
            else Cascade(page, flags, DispatchRung(content))
  {
    NamesDistinct();
    assert Ladder[0].name == "device-smartphone";
  }

  /** The bare name of a rung is detected as that rung. */
  lemma DetectRungName(k: nat)
    requires k < |Ladder|
    ensures Detect(Some(Ladder[k].name)) == Some(k)
  {
    LadderWellFormed();
    NormaliseUnquoted(Ladder[k].name);
  }

  /** The three cases of the dispatcher: no marker or an unknown one acts as
      `device-wide`, `device-smartphone` does nothing, any other rung name
      cascades from that rung. */
  lemma DispatchCases(page: seq<Element>, flags: seq<bool>, content: Option<string>)
    requires |flags| == |Ladder|
    ensures content.None? || !OnLadder(Normalise(content.value)) ==>
      Dispatch(page, flags, content) == Cascade(page, flags, 3)
    ensures content.Some? && Normalise(content.value) == "device-smartphone" ==>
      Dispatch(page, flags, content) == Outcome(flags, [])
    ensures (content.Some? && OnLadder(Normalise(content.value))
        && Normalise(content.value) != "device-smartphone") ==>
      Dispatch(page, flags, content) == Cascade(page, flags, RungOf(Normalise(content.value)))
  {
    LadderWellFormed();
  }

  /** An absent marker, an unknown marker and `device-wide` all load the same. */
  lemma DispatchFallbackIsWide(page: seq<Element>, flags: seq<bool>, content: Option<string>)
    requires |flags| == |Ladder|
    requires content.None? || !OnLadder(Normalise(content.value))
    ensures Dispatch(page, flags, content) == Dispatch(page, flags, Some("device-wide"))
  {
    LadderWellFormed();
    assert Ladder[3].name == "device-wide";
    NormaliseUnquoted("device-wide");
  }

  /** A rung name wrapped in one layer of double quotes dispatches exactly as
      the bare name does. */
  lemma DispatchQuoted(page: seq<Element>, flags: seq<bool>, k: nat)
    requires |flags| == |Ladder| && k < |Ladder|
    ensures Dispatch(page, flags, Some("\"" + Ladder[k].name + "\""))
         == Dispatch(page, flags, Some(Ladder[k].name))
  {
    LadderWellFormed();
    NormaliseQuoted(Ladder[k].name);
    NormaliseUnquoted(Ladder[k].name);
  }

  /** Flags only go from false to true. */
  lemma DispatchMonotone(page: seq<Element>, flags: seq<bool>, content: Option<string>)
    requires |flags| == |Ladder|
    ensures var g := Dispatch(page, flags, content).flags;
      |g| == |Ladder| && forall k :: 0 <= k < |Ladder| && flags[k] ==> g[k]
  {
  }

  /** Running the dispatcher again with the same marker on the same page
      (a resize that did not change the category) starts no load and changes
      no flag. */
  lemma DispatchIdempotent(page: seq<Element>, flags: seq<bool>, content: Option<string>)
    requires |flags| == |Ladder|
    ensures var g := Dispatch(page, flags, content).flags;
      Dispatch(page, g, content) == Outcome(g, [])
  {
    match Detect(content)
    case None => CascadeIdempotent(page, flags, 3);
    case Some(i) => CascadeIdempotent(page, flags, i);
  }

  /** One object of the `devices` array: its name and parent never change,
      its `loaded` flag does. */
  class Device {
    const name: string
    const parent: Option<string>
    var loaded: bool

    constructor (name: string, parent: Option<string>)
      ensures this.name == name && this.parent == parent && !loaded
    {
      this.name := name;
      this.parent := parent;
      loaded := false;
    }
  }

  /** The state the IIFE's closure keeps: the `devices` array and, in
      `started`, every `$(el).load(url)` issued so far. */
  class LoadHTMLFragments {
    const devices: seq<Device>
    var started: seq<Load>

    /** The objects of `devices` carry the names and parents of the ladder. */
    ghost predicate Valid()
    {
      |devices| == |Ladder| == 4
      && forall k :: 0 <= k < |devices| ==>
           devices[k].name == Ladder[k].name && devices[k].parent == Ladder[k].parent
    }

    /** The `loaded` flags, rung by rung. */
    function Flags(): (f: seq<bool>)
      requires Valid()
      reads devices
      ensures |f| == |Ladder|
    {
      [devices[0].loaded, devices[1].loaded, devices[2].loaded, devices[3].loaded]
    }

    /** The page-load state: every rung unloaded, nothing started. */
    constructor ()
      ensures Valid()
      ensures Flags() == [false, false, false, false] && started == []
      ensures forall k :: 0 <= k < |devices| ==> fresh(devices[k])
    {
      var smartphone := new Device("device-smartphone", None);
      var tablet := new Device("device-tablet", Some("device-smartphone"));
      var desktop := new Device("device-desktop", Some("device-tablet"));
      var wide := new Device("device-wide", Some("device-desktop"));
      devices := [smartphone, tablet, desktop, wide];
      started := [];
    }

    /** `getDevice` (lines 66-77): counts down from the last index and returns
        the first object met whose name is `n`, or null. */
    method GetDevice(n: string) returns (d: Device?)
      ensures d == null <==> forall k :: 0 <= k < |devices| ==> devices[k].name != n
      ensures d != null ==> exists k :: 0 <= k < |devices| && d == devices[k] && d.name == n
                                   && forall j :: k < j < |devices| ==> devices[j].name != n
    {
      var i := |devices|;
      while i > 0
        invariant 0 <= i <= |devices|
        invariant forall j :: i <= j < |devices| ==> devices[j].name != n
      {
        i := i - 1;
        if devices[i].name == n {
          return devices[i];
        }
      }
      return null;
    }

    /** An object `getDevice` finds for a name sits on that name's rung. */
    lemma FoundIsOnRung(n: string, d: Device)
      requires Valid()
      requires exists k :: 0 <= k < |devices| && d == devices[k] && d.name == n
      ensures OnLadder(n) && d == devices[RungOf(n)]
    {
      LadderWellFormed();
      var k :| 0 <= k < |devices| && d == devices[k] && d.name == n;
      assert Ladder[k].name == n;
    }

    /** A name no object carries is not on the ladder. */
    lemma NotFoundIsOffLadder(n: string)
      requires Valid()
      requires forall k :: 0 <= k < |devices| ==> devices[k].name != n
      ensures !OnLadder(n)
    {
      NamesDistinct();
    }

    /** `Flags()` read rung by rung. */
    lemma FlagsAt()
      requires Valid()
      ensures forall k :: 0 <= k < |Ladder| ==> Flags()[k] == devices[k].loaded
    {
    }

    /** The four objects are distinct, so setting one's flag leaves the
        others' alone. */
    lemma DevicesDistinct()
      requires Valid()
      ensures forall j, k :: 0 <= j < k < |devices| ==> devices[j] != devices[k]
    {
      NamesDistinct();
    }

    /** The `.each` of lines 55-58: one `$(this).load($(this).data(name))` per
        element carrying `data-<name>`, in document order, setting the
        device's flag inside the callback. */
    method Each(page: seq<Element>, device: Device)
      modifies this`started, device`loaded
      ensures started == old(started) + Bound(page, device.name)
      ensures device.loaded == (old(device.loaded) || |Bound(page, device.name)| > 0)
    {
      var k := 0;
      while k < |page|
        invariant 0 <= k <= |page|
        invariant started == old(started) + BoundUpTo(page, device.name, k)
        invariant device.loaded == (old(device.loaded) || |BoundUpTo(page, device.name, k)| > 0)
      {
        if device.name in page[k].data {
          started := started + [Load(k, page[k].data[device.name])];
          device.loaded := true;
        }
        k := k + 1;
      }
    }

    /** `loadFragment` (lines 50-63). The flag is set inside the `.each`, so a
        rung without bound elements stays unloaded; the parent is visited only
        when the rung was not loaded yet. */
    method LoadFragment(page: seq<Element>, deviceCategoryType: string)
      requires Valid() && OnLadder(deviceCategoryType)
      modifies this, devices
      ensures var r := Cascade(page, old(Flags()), RungOf(deviceCategoryType));
        Flags() == r.flags && started == old(started) + r.loads
      decreases RungOf(deviceCategoryType)
    {
      ghost var i := RungOf(deviceCategoryType);
      ghost var before, log := Flags(), started;
      FlagsAt();
      assert devices[i].name == deviceCategoryType;
      var device := GetDevice(deviceCategoryType);
      FoundIsOnRung(deviceCategoryType, device);
      if !device.loaded {
        DevicesDistinct();
        Each(page, device);
        ghost var b := Bound(page, device.name);
        ghost var marked := Flags();
        FlagsAt();
        CascadeUnfold(page, before, marked, i);
        ParentIsRungBelow(i);
        if device.parent.Some? {
          ghost var rest := Cascade(page, marked, i - 1);
          LoadFragment(page, device.parent.value);
          AppendAssociative(log, b, rest.loads);
        }
      } else {
        assert Cascade(page, before, i) == Outcome(before, []);
        assert started == log + [];
      }
    }

    /** The `try` block of lines 32-38: the marker read at line 33 (None when
        that read throws), stripped of quotes, looked up with `getDevice`. The
        object found is the detected rung's; null means nothing was
        detected. */
    method DetectDevice(content: Option<string>) returns (device: Device?)
      requires Valid()
      ensures device == null <==> Detect(content).None?
      ensures device != null ==> device == devices[Detect(content).value]
    {
      device := null;
      if content.Some? {
        var deviceCategory := Normalise(content.value);
        device := GetDevice(deviceCategory);
        if device == null {
          NotFoundIsOffLadder(deviceCategory);
        } else {
          FoundIsOnRung(deviceCategory, device);
        }
      }
    }

    /** `checkDeviceCategory` (lines 30-47); `content` is the marker read at
        line 33, None when that read throws. Also what a resize runs. */
    method CheckDeviceCategory(page: seq<Element>, content: Option<string>)
      requires Valid()
      modifies this, devices
      ensures var r := Dispatch(page, old(Flags()), content);
        Flags() == r.flags && started == old(started) + r.loads
    {
      ghost var before, log := Flags(), started;
      var device := DetectDevice(content);
      DispatchByRung(page, before, content);
      ghost var target := Dispatch(page, before, content);
      if device == null {
        WideIsTopRung();
        assert target == Cascade(page, before, RungOf("device-wide"));
        LoadFragment(page, "device-wide");
      } else {
        ghost var i := Detect(content).value;
        assert device.name == Ladder[i].name;
        SmartphoneIsBottomRung(device.name);
        if device.name != "device-smartphone" {
          assert target == Cascade(page, before, RungOf(device.name));
          LoadFragment(page, device.name);
        } else {
          assert target == Outcome(before, []);
          assert started == log + [];
        }
      }
    }
  }

  /** The IIFE of lines 20-88 as far as the page is concerned: build the
      `devices` array, then run `checkDeviceCategory` once (line 87). The
      result is the dispatcher's outcome from the page-load state. */
  method Start(page: seq<Element>, content: Option<string>) returns (o: LoadHTMLFragments)
    ensures fresh(o) && o.Valid()
    ensures forall k :: 0 <= k < |o.devices| ==> fresh(o.devices[k])
    ensures var r := Dispatch(page, [false, false, false, false], content);
      o.Flags() == r.flags && o.started == r.loads
  {
    o := new LoadHTMLFragments();
    o.CheckDeviceCategory(page, content);
  }
}
