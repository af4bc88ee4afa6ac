/** The loader of js/src/jquery.responsive-fragments.js: the marker is looked
    up with `indexOf` in a four-name sequence, a `switch` on that key calls
    up to three loaders in order, and each loader guards its `.each` with a
    global flag of its own. No loader exists for `device-smartphone`. */
module SwitchLoader {
  import opened PageModel

  /** `deviceCategorySequence` (line 13). */
  const DeviceCategorySequence: seq<string> :=
    ["device-smartphone", "device-tablet", "device-desktop", "device-wide"]

  const TabletKey := "device-tablet"
  const DesktopKey := "device-desktop"
  const WideKey := "device-wide"

  /** The value of `deviceCategoryKey` when the `switch` at line 33 runs:
      None stands for `undefined`, left when the style read throws; otherwise
      the index of the normalised marker, -1 when it is not in the sequence. */
  function CategoryKey(content: Option<string>): (key: Option<int>)
    ensures key.None? <==> content.None?
    ensures key.Some? ==> -1 <= key.value < |DeviceCategorySequence|
    ensures key.Some? ==>
      (key.value == -1 <==> Normalise(content.value) !in DeviceCategorySequence)
    ensures key.Some? && key.value >= 0 ==>
      DeviceCategorySequence[key.value] == Normalise(content.value)
  {
    match content
    case None => None
    case Some(c) => Some(IndexOf(DeviceCategorySequence, Normalise(c)))
  }

  /** Each name of the sequence is its own key. */
  lemma KeyOfName(k: nat)
    requires k < |DeviceCategorySequence|
    ensures CategoryKey(Some(DeviceCategorySequence[k])) == Some(k)
  {
    var w := DeviceCategorySequence[k];
    SequenceDistinct();
    SequenceUnquoted();
    NormaliseUnquoted(w);
    var r := IndexOf(DeviceCategorySequence, w);
    assert DeviceCategorySequence[r] == w;
  }

  /** The four names are distinct. */
  lemma SequenceDistinct()
    ensures forall j, k :: 0 <= j < k < |DeviceCategorySequence| ==>
      DeviceCategorySequence[j] != DeviceCategorySequence[k]
  {
    assert |DeviceCategorySequence[0]| == 17 && |DeviceCategorySequence[1]| == 13;
    assert |DeviceCategorySequence[2]| == 14 && |DeviceCategorySequence[3]| == 11;
  }

  /** No name holds a quote character. */
  lemma SequenceUnquoted()
    ensures forall k :: 0 <= k < |DeviceCategorySequence| ==> '"' !in DeviceCategorySequence[k]
  {
    Unquoted(DeviceCategorySequence[0]);
    Unquoted(DeviceCategorySequence[1]);
    Unquoted(DeviceCategorySequence[2]);
    Unquoted(DeviceCategorySequence[3]);
  }

  /** The three globals `deviceTabletLoaded`, `deviceDesktopLoaded` and
      `deviceWideLoaded` (lines 16-18). */
  datatype Flags = Flags(tablet: bool, desktop: bool, wide: bool)

  /** The flags after some loader calls, and the loads those calls started. */
  datatype Outcome = Outcome(flags: Flags, loads: seq<Load>)

  /** One loader (lines 59-86), given its flag and its attribute: nothing
      when the flag is set; otherwise its `.each`, whose callback sets the
      flag, so the flag ends set only if some element was visited. */
  function Loader(page: seq<Element>, loaded: bool, key: string): (r: (bool, seq<Load>))
    ensures loaded ==> r == (true, [])
    ensures r.0 == (loaded || |r.1| > 0)
  {
    if loaded then (true, [])
    else var b := Bound(page, key); (|b| > 0, b)
  }

  function LoadTablet(page: seq<Element>, o: Outcome): (r: Outcome)
    ensures o.flags.tablet ==> r == o
    ensures r.flags.desktop == o.flags.desktop && r.flags.wide == o.flags.wide
    ensures r.flags.tablet == (o.flags.tablet || |r.loads| > |o.loads|)
  {
    var (f, l) := Loader(page, o.flags.tablet, TabletKey);
    Outcome(o.flags.(tablet := f), o.loads + l)
  }

  function LoadDesktop(page: seq<Element>, o: Outcome): (r: Outcome)
    ensures o.flags.desktop ==> r == o
    ensures r.flags.tablet == o.flags.tablet && r.flags.wide == o.flags.wide
    ensures r.flags.desktop == (o.flags.desktop || |r.loads| > |o.loads|)
  {
    var (f, l) := Loader(page, o.flags.desktop, DesktopKey);
    Outcome(o.flags.(desktop := f), o.loads + l)
  }

  function LoadWide(page: seq<Element>, o: Outcome): (r: Outcome)
    ensures o.flags.wide ==> r == o
    ensures r.flags.tablet == o.flags.tablet && r.flags.desktop == o.flags.desktop
    ensures r.flags.wide == (o.flags.wide || |r.loads| > |o.loads|)
  {
    var (f, l) := Loader(page, o.flags.wide, WideKey);
    Outcome(o.flags.(wide := f), o.loads + l)
  }

  /** Each loader touches only its own flag, which it sets exactly when it
      was set or some element carries the loader's attribute, and appends
      to the log only the loads of its own attribute, and only when its flag
      was clear. */
  lemma LoadersOwnFlag(page: seq<Element>, o: Outcome)
    ensures var t := LoadTablet(page, o);
      && t.flags.desktop == o.flags.desktop && t.flags.wide == o.flags.wide
      && t.flags.tablet == (o.flags.tablet || exists e :: Carries(page, TabletKey, e))
      && t.loads == o.loads + LoadsIf(true, o.flags.tablet, page, TabletKey)
    ensures var d := LoadDesktop(page, o);
      && d.flags.tablet == o.flags.tablet && d.flags.wide == o.flags.wide
      && d.flags.desktop == (o.flags.desktop || exists e :: Carries(page, DesktopKey, e))
      && d.loads == o.loads + LoadsIf(true, o.flags.desktop, page, DesktopKey)
    ensures var w := LoadWide(page, o);
      && w.flags.tablet == o.flags.tablet && w.flags.desktop == o.flags.desktop
      && w.flags.wide == (o.flags.wide || exists e :: Carries(page, WideKey, e))
      && w.loads == o.loads + LoadsIf(true, o.flags.wide, page, WideKey)
  {
    LoaderCharacterised(page, o.flags.tablet, TabletKey);
    LoaderCharacterised(page, o.flags.desktop, DesktopKey);
    LoaderCharacterised(page, o.flags.wide, WideKey);
  }

  /** The `switch` of lines 33-54 on `key`, from the flags and log in `o`. */
  function Switch(page: seq<Element>, o: Outcome, key: Option<int>): (r: Outcome)
    ensures key == Some(0) ==> r == o
    ensures o.flags.tablet ==> r.flags.tablet
    ensures o.flags.desktop ==> r.flags.desktop
    ensures o.flags.wide ==> r.flags.wide
  {
    match key
    case Some(0) => o
    case Some(1) => LoadTablet(page, o)
    case Some(2) => LoadDesktop(page, LoadTablet(page, o))
    case Some(3) => LoadWide(page, LoadDesktop(page, LoadTablet(page, o)))
    case _ => LoadWide(page, LoadDesktop(page, LoadTablet(page, o)))
  }

  /** `checkDeviceCategory` (lines 20-56): the new flags and the loads it
      starts. */
  function Dispatch(page: seq<Element>, flags: Flags, content: Option<string>): (r: Outcome)
    ensures CategoryKey(content) == Some(0) ==> r == Outcome(flags, [])
    ensures flags.tablet ==> r.flags.tablet
    ensures flags.desktop ==> r.flags.desktop
    ensures flags.wide ==> r.flags.wide
  {
    Switch(page, Outcome(flags, []), CategoryKey(content))
  }

  /** The `switch` only appends to the log it starts from, and what it
      appends and the flags it leaves do not depend on that log. */
  lemma SwitchAppends(page: seq<Element>, o: Outcome, key: Option<int>)
    ensures var r := Switch(page, o, key); var e := Switch(page, Outcome(o.flags, []), key);
      r.flags == e.flags && r.loads == o.loads + e.loads
  {
    var o1 := LoadTablet(page, o);
    var o2 := LoadDesktop(page, o1);
    var e1 := LoadTablet(page, Outcome(o.flags, []));
    var e2 := LoadDesktop(page, e1);
    var e3 := LoadWide(page, e2);
    assert o1.loads == o.loads + e1.loads;
    AppendAssociative(o.loads, e1.loads, e2.loads[|e1.loads|..]);
    assert e2.loads == e1.loads + e2.loads[|e1.loads|..];
    assert o2.loads == o.loads + e2.loads;
    AppendAssociative(o.loads, e2.loads, e3.loads[|e2.loads|..]);
    assert e3.loads == e2.loads + e3.loads[|e2.loads|..];
  }

  /** How far up the ladder the `switch` loads: 0 for key 0, the key itself
      for keys 1 to 3, and 3 for every other key, `undefined` included. */
  function Level(content: Option<string>): (n: nat)
    ensures n <= 3
  {
    LevelOf(CategoryKey(content))
  }

  function LevelOf(key: Option<int>): (n: nat)
    ensures n <= 3
  {
    match key
    case Some(k) => if 0 <= k <= 3 then k else 3
    case None => 3
  }

  /** The loads one loader contributes when it runs with its flag `loaded`. */
  function LoadsIf(run: bool, loaded: bool, page: seq<Element>, key: string): (r: seq<Load>)
  {
    if run && !loaded then Bound(page, key) else []
  }

  /** A loader starts a load for every element carrying its attribute and
      for nothing else, and ends with its flag set exactly when the flag was
      set or such an element exists. */
  lemma LoaderCharacterised(page: seq<Element>, loaded: bool, key: string)
    ensures Loader(page, loaded, key).0 == (loaded || exists e :: Carries(page, key, e))
    ensures Loader(page, loaded, key).1 == if loaded then [] else Bound(page, key)
  {
    BoundNonEmpty(page, key);
  }

  /** The `switch` in closed form: level 1 runs the tablet loader, level 2
      tablet then desktop, level 3 (key 3 or the `default`) tablet, desktop
      then wide; each runs only if its flag is clear and sets it only if it
      starts a load. */
  lemma DispatchCharacterised(page: seq<Element>, flags: Flags, content: Option<string>)
    ensures var r := Dispatch(page, flags, content); var n := Level(content);
      && r.loads == LoadsIf(1 <= n, flags.tablet, page, TabletKey)
                    + LoadsIf(2 <= n, flags.desktop, page, DesktopKey)
                    + LoadsIf(3 <= n, flags.wide, page, WideKey)
      && r.flags.tablet == (flags.tablet || (1 <= n && |Bound(page, TabletKey)| > 0))
      && r.flags.desktop == (flags.desktop || (2 <= n && |Bound(page, DesktopKey)| > 0))
      && r.flags.wide == (flags.wide || (3 <= n && |Bound(page, WideKey)| > 0))
  {
    SwitchCharacterised(page, flags, CategoryKey(content));
  }

  lemma SwitchCharacterised(page: seq<Element>, flags: Flags, key: Option<int>)
    ensures var r := Switch(page, Outcome(flags, []), key); var n := LevelOf(key);
      && r.loads == LoadsIf(1 <= n, flags.tablet, page, TabletKey)
                    + LoadsIf(2 <= n, flags.desktop, page, DesktopKey)
                    + LoadsIf(3 <= n, flags.wide, page, WideKey)
      && r.flags.tablet == (flags.tablet || (1 <= n && |Bound(page, TabletKey)| > 0))
      && r.flags.desktop == (flags.desktop || (2 <= n && |Bound(page, DesktopKey)| > 0))
      && r.flags.wide == (flags.wide || (3 <= n && |Bound(page, WideKey)| > 0))
  {
    var start := Outcome(flags, []);
    var o1 := LoadTablet(page, start);
    var o2 := LoadDesktop(page, o1);
    var o3 := LoadWide(page, o2);
    var t := LoadsIf(true, flags.tablet, page, TabletKey);
    var d := LoadsIf(true, flags.desktop, page, DesktopKey);
    var w := LoadsIf(true, flags.wide, page, WideKey);
    var none: seq<Load> := [];
    assert o1.loads == none + t == t;
    assert o2.loads == t + d;
    assert o3.loads == t + d + w;
    match key
    case Some(0) =>
      assert none + none + none == none;
    case Some(1) =>
      assert t + none + none == t;
    case Some(2) =>
      assert t + d + none == t + d;
    case Some(3) =>
    case _ =>
  }

  /** Key 0, a `device-smartphone` marker, starts nothing and changes nothing. */
  lemma DispatchSmartphoneIsNoOp(page: seq<Element>, flags: Flags, c: string)
    requires Normalise(c) == "device-smartphone"
    ensures Dispatch(page, flags, Some(c)) == Outcome(flags, [])
  {
    assert CategoryKey(Some(c)) == Some(0);
  }

  /** A failed read and an unknown marker take the `default` branch, which
      does what key 3 does. */
  lemma DispatchDefaultIsWide(page: seq<Element>, flags: Flags, content: Option<string>)
    requires content.None? || Normalise(content.value) !in DeviceCategorySequence
    ensures Dispatch(page, flags, content) == Dispatch(page, flags, Some("device-wide"))
  {
    KeyOfName(3);
    assert DeviceCategorySequence[3] == WideKey;
  }

  /** A name of the sequence wrapped in one layer of double quotes
      dispatches as the bare name. */
  lemma DispatchQuoted(page: seq<Element>, flags: Flags, k: nat)
    requires k < |DeviceCategorySequence|
    ensures Dispatch(page, flags, Some("\"" + DeviceCategorySequence[k] + "\""))
         == Dispatch(page, flags, Some(DeviceCategorySequence[k]))
  {
    var w := DeviceCategorySequence[k];
    SequenceUnquoted();
    NormaliseQuoted(w);
    NormaliseUnquoted(w);
  }

  /** No flag goes back to false. */
  lemma DispatchMonotone(page: seq<Element>, flags: Flags, content: Option<string>)
    ensures var g := Dispatch(page, flags, content).flags;
      (flags.tablet ==> g.tablet) && (flags.desktop ==> g.desktop) && (flags.wide ==> g.wide)
  {
    DispatchCharacterised(page, flags, content);
  }

  /** Every load the dispatcher starts is one a tablet, desktop or wide
      element asked for: nothing is ever loaded for `data-device-smartphone`. */
  lemma DispatchNeverLoadsSmartphone(page: seq<Element>, flags: Flags, content: Option<string>)
    ensures forall l :: l in Dispatch(page, flags, content).loads ==>
      l in Bound(page, TabletKey) || l in Bound(page, DesktopKey) || l in Bound(page, WideKey)
  {
    DispatchCharacterised(page, flags, content);
  }

  /** On a page where only `data-device-smartphone` elements exist, no
      marker ever starts a load. */
  lemma SmartphoneOnlyPageLoadsNothing(page: seq<Element>, flags: Flags, content: Option<string>)
    requires forall e :: 0 <= e < |page| ==>
      TabletKey !in page[e].data && DesktopKey !in page[e].data && WideKey !in page[e].data
    ensures Dispatch(page, flags, content).loads == []
  {
    DispatchCharacterised(page, flags, content);
    BoundNonEmpty(page, TabletKey);
    BoundNonEmpty(page, DesktopKey);
    BoundNonEmpty(page, WideKey);
  }

  /** Running the dispatcher again with the same marker on the same page
      starts no load and changes no flag. */
  lemma DispatchIdempotent(page: seq<Element>, flags: Flags, content: Option<string>)
    ensures var g := Dispatch(page, flags, content).flags;
      Dispatch(page, g, content) == Outcome(g, [])
  {
    var g := Dispatch(page, flags, content).flags;
    DispatchCharacterised(page, flags, content);
    DispatchCharacterised(page, g, content);
  }

  /** The script's globals: the three flags and, in `started`, every
      `$(el).load(url)` issued so far. */
  class ResponsiveFragments {
    var deviceTabletLoaded: bool
    var deviceDesktopLoaded: bool
    var deviceWideLoaded: bool
    var started: seq<Load>

    function State(): (f: Flags)
      reads this
    {
      Flags(deviceTabletLoaded, deviceDesktopLoaded, deviceWideLoaded)
    }

    /** The flags together with the log. */
    function Snapshot(): (o: Outcome)
      reads this
    {
      Outcome(State(), started)
    }

    /** The state at page load (lines 16-18). */
    constructor ()
      ensures State() == Flags(false, false, false) && started == []
    {
      deviceTabletLoaded, deviceDesktopLoaded, deviceWideLoaded := false, false, false;
      started := [];
    }

    /** A `$('[data-<key>]').each(...)` issuing `$(this).load($(this).data(key))`;
        the result is whether the callback ran, that is whether it set the
        loader's flag. */
    method Each(page: seq<Element>, key: string) returns (visited: bool)
      modifies this`started
      ensures started == old(started) + Bound(page, key)
      ensures visited == (|Bound(page, key)| > 0)
    {
      visited := false;
      var k := 0;
      while k < |page|
        invariant 0 <= k <= |page|
        invariant started == old(started) + BoundUpTo(page, key, k)
        invariant visited == (|BoundUpTo(page, key, k)| > 0)
      {
        if key in page[k].data {
          started := started + [Load(k, page[k].data[key])];
          visited := true;
        }
        k := k + 1;
      }
    }

    /** `loadTabletFragments` (lines 59-66); touches no other flag. */
    method LoadTabletFragments(page: seq<Element>)
      modifies this`deviceTabletLoaded, this`started
      ensures Snapshot() == LoadTablet(page, old(Snapshot()))
    {
      if !deviceTabletLoaded {
        deviceTabletLoaded := Each(page, TabletKey);
      }
    }

    /** `loadDesktopFragments` (lines 69-76); touches no other flag. */
    method LoadDesktopFragments(page: seq<Element>)
      modifies this`deviceDesktopLoaded, this`started
      ensures Snapshot() == LoadDesktop(page, old(Snapshot()))
    {
      if !deviceDesktopLoaded {
        deviceDesktopLoaded := Each(page, DesktopKey);
      }
    }

    /** `loadWideFragments` (lines 79-86); touches no other flag. */
    method LoadWideFragments(page: seq<Element>)
      modifies this`deviceWideLoaded, this`started
      ensures Snapshot() == LoadWide(page, old(Snapshot()))
    {
      if !deviceWideLoaded {
        deviceWideLoaded := Each(page, WideKey);
      }
    }

    /** `checkDeviceCategory` (lines 20-56); `content` is the marker read at
        line 23, None when that read throws. */
    method CheckDeviceCategory(page: seq<Element>, content: Option<string>)
      modifies this
      ensures Snapshot() == Switch(page, old(Snapshot()), CategoryKey(content))
      ensures var r := Dispatch(page, old(State()), content);
        State() == r.flags && started == old(started) + r.loads
    {
      var deviceCategoryKey: Option<int> := None;
      if content.Some? {
        var deviceCategory := Normalise(content.value);
        deviceCategoryKey := Some(IndexOf(DeviceCategorySequence, deviceCategory));
      }
      assert deviceCategoryKey == CategoryKey(content);
      ghost var before := Snapshot();
      match deviceCategoryKey {
        case Some(0) =>
        case Some(1) =>
          LoadTabletFragments(page);
        case Some(2) =>
          LoadTabletFragments(page);
          LoadDesktopFragments(page);
        case Some(3) =>
          LoadTabletFragments(page);
          LoadDesktopFragments(page);
          LoadWideFragments(page);
        case _ =>
          LoadTabletFragments(page);
          LoadDesktopFragments(page);
          LoadWideFragments(page);
      }
      assert Snapshot() == Switch(page, before, deviceCategoryKey);
      SwitchAppends(page, before, deviceCategoryKey);
    }
  }
}
