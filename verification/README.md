# responsive-fragments in Dafny

A model of the two scripts of *responsive-fragments*. Both scripts read a
device-category marker that CSS writes into the `content` of `body:after`.
They map the marker onto a four-rung ladder: `device-smartphone` <
`device-tablet` < `device-desktop` < `device-wide`. They then start a
fragment load (`$(el).load(url)`) for every element bound to that rung or a
smaller one, and each category is loaded at most once per page.

- `page.dfy` (module `PageModel`) holds what both scripts share:
  - The page is a sequence of elements, each with its `data-*` attributes
    (key without the `data-` prefix, value the fragment URL).
  - Started loads are a log of `Load(element index, url)` entries.
  - `Bound(page, key)` is what one `$('[data-<key>]').each(...)` starts.
  - `IndexOf` models `Array.prototype.indexOf`.
  - The marker normalisation is two `replace('"', '', 'g')` calls. In
    standard JavaScript the third argument is ignored, so each call removes
    only the first quote character.
- `cascade.dfy` (module `CascadeLoader`) models
  `js/src/jquery.responsivefragments.js`:
  - a `Device` object per ladder entry, with a mutable `loaded` flag;
  - the state the IIFE's closure keeps (the `devices` array) and the log;
  - `getDevice` as a count-down loop;
  - `loadFragment` as a recursive method that sets the flag inside the
    `.each` and then follows the parent name;
  - `checkDeviceCategory` with its three cases.

  The methods are proved against the value-level functions `Cascade`,
  `Detect` and `Dispatch`. Lemmas about those functions state the promised
  properties.
- `switch.dfy` (module `SwitchLoader`) models
  `js/src/jquery.responsive-fragments.js`:
  - the class `ResponsiveFragments` holds the three global flags and the log;
  - `indexOf` in the four-name sequence produces the key;
  - the `switch` on the key calls the tablet, desktop and wide loaders in
    order;
  - each loader guards its `.each` with its own flag.

  The methods are proved against the functions `CategoryKey`, `LoadTablet`,
  `LoadDesktop`, `LoadWide` and `Switch`.
- `agreement.dfy` (module `Agreement`) relates the two scripts:
  - They read the marker the same way.
  - From the page-load state they leave the same tablet, desktop and wide
    flags.
  - They start the same loads, apart from order. The only exception is that
    the cascading script also loads the `device-smartphone` elements.
  - A worked example page shows the two orders.

The model follows the code in two places where a looser reading of the
scripts' purpose would say otherwise:
- The cascade of `jquery.responsivefragments.js` does reach
  `device-smartphone`, because that entry is the parent of `device-tablet`.
  From the page-load state, every cascade from tablet or wider reaches
  `device-smartphone` and loads its elements (`CascadeFresh`,
  `CascadeFromWide`). A later cascade stops at the first rung already
  loaded (`CascadeCharacterised`).
- A marker wrapped in two layers of double quotes is not reduced to the
  bare name. Only the first two of its four quotes are removed
  (`NormaliseDoublyQuoted`), so such a marker is unknown and falls back to
  `device-wide`.

In `jquery.responsivefragments.js`, if the style read throws, `device` is
still `undefined`. Since `undefined == null`, that case and an unknown
marker both take the `device-wide` branch, and the model gives them the
same `None`.

## Model

| member | source | states |
|---|---|---|
| PageModel.BoundUpToSound | js/src/jquery.responsivefragments.js:55-56 | every load of a `.each` over the first k elements is for one of them that carries `data-<key>`, with that attribute's value as URL |
| PageModel.BoundUpToOrdered | js/src/jquery.responsivefragments.js:55-56 | the loads of a `.each` are in strictly increasing document order, so no element is loaded twice |
| PageModel.BoundUpToComplete | js/src/jquery.responsivefragments.js:55-56 | every one of the first k elements that carries `data-<key>` gets a load |
| PageModel.BoundCharacterised | js/src/jquery.responsivefragments.js:55-58 | a `.each` starts exactly one load per element carrying the attribute, with its value as URL, in document order, and nothing else |
| PageModel.BoundNonEmpty | js/src/jquery.responsivefragments.js:55-58 | a `.each` starts at least one load iff some element carries the attribute, which is when the callback's flag assignment runs |
| PageModel.Bound | js/src/jquery.responsivefragments.js:55-58 | the loads one `$('[data-<key>]').each(...)` starts, one `Load` per visit; `BoundCharacterised` and `BoundNonEmpty` state what they are |
| PageModel.IndexOf | js/src/jquery.responsive-fragments.js:28 | the result is -1 exactly when the value is absent, and otherwise the first index holding it |
| PageModel.StripFirstQuote | js/src/jquery.responsivefragments.js:34 | one `replace('"', '', 'g')`, which removes the first quote only: one character shorter exactly when there is a quote, unchanged otherwise (`StripFirstQuoteRemovesOne` gives the multiset) |
| PageModel.Normalise | js/src/jquery.responsivefragments.js:34-35 | the two `replace` calls: at most two characters shorter, and a quote-free marker is unchanged (`NormaliseRemovesAtMostTwoQuotes`, `NormaliseQuoted` and `NormaliseDoublyQuoted` say which characters go) |
| PageModel.StripFirstQuoteRemovesOne | js/src/jquery.responsivefragments.js:34 | one `replace` removes one quote character if there is one, and changes nothing else in the multiset of characters |
| PageModel.NormaliseRemovesAtMostTwoQuotes | js/src/jquery.responsivefragments.js:34-35 | the two `replace` calls remove at most two characters, and only quote characters |
| PageModel.NormaliseUnquoted | js/src/jquery.responsivefragments.js:34-35 | a marker without quotes is left unchanged |
| PageModel.NormaliseQuoted | js/src/jquery.responsivefragments.js:34-35 | a marker in one layer of double quotes normalises to the bare word |
| PageModel.NormaliseDoublyQuoted | js/src/jquery.responsivefragments.js:34-35 | a marker in two layers of double quotes keeps its two trailing quotes, so it is not the bare word |
| CascadeLoader.RungOf | js/src/jquery.responsivefragments.js:23-27 | a name on the ladder has a rung whose entry carries that name |
| CascadeLoader.NamesDistinct | js/src/jquery.responsivefragments.js:23-27 | the ladder has four entries with pairwise distinct names |
| CascadeLoader.LadderWellFormed | js/src/jquery.responsivefragments.js:23-27 | four distinct names, none containing a quote; the smallest rung has no parent; every other rung has the rung below as parent; each name finds its own rung |
| CascadeLoader.ParentIsRungBelow | js/src/jquery.responsivefragments.js:23-27 | a rung has a parent iff it is not rung 0, and the parent's rung is one lower, so the cascade terminates |
| CascadeLoader.WideIsTopRung | js/src/jquery.responsivefragments.js:42-43 | the fallback name `device-wide` is on the ladder and is its top rung |
| CascadeLoader.SmartphoneIsBottomRung | js/src/jquery.responsivefragments.js:44 | a ladder name is `device-smartphone` iff it is rung 0 |
| CascadeLoader.Cascade | js/src/jquery.responsivefragments.js:50-63 | `loadFragment` keeps four flags, never clears one, and leaves the flags above the starting rung untouched |
| CascadeLoader.CascadeCharacterised | js/src/jquery.responsivefragments.js:53-62 | closed form: with s the highest loaded rung at or below i, rungs i down to s+1 are visited; each visited rung's flag is set iff it has a bound element; the loads are those rungs' loads, widest first |
| CascadeLoader.CascadeFlags | js/src/jquery.responsivefragments.js:53-62 | the flag half of the closed form |
| CascadeLoader.CascadeLoads | js/src/jquery.responsivefragments.js:53-62 | the load half of the closed form |
| CascadeLoader.CascadeLoadedIsNoOp | js/src/jquery.responsivefragments.js:54-62 | on a loaded rung nothing is started, no flag changes and the parent is not visited |
| CascadeLoader.CascadeFresh | js/src/jquery.responsivefragments.js:53-62 | from page load, rung i and every rung below it are loaded, rung i first and smartphone last, and exactly the rungs with bound elements get their flag set |
| CascadeLoader.CascadeFromWide | js/src/jquery.responsivefragments.js:50-63 | from page load with every rung bound, `loadFragment("device-wide")` loads wide, desktop, tablet and smartphone in that order, once each, and sets all four flags |
| CascadeLoader.CascadeIdempotent | js/src/jquery.responsivefragments.js:54-61 | a second `loadFragment` on the same rung starts nothing and changes no flag |
| CascadeLoader.Detect | js/src/jquery.responsivefragments.js:32-38 | a detected rung carries the normalised marker as name; nothing is detected iff the read threw or no rung has that name |
| CascadeLoader.Dispatch | js/src/jquery.responsivefragments.js:30-47 | what `checkDeviceCategory` does from given flags; its four flags are kept; `DispatchCases` and `DispatchByRung` give its three branches |
| CascadeLoader.DispatchByRung | js/src/jquery.responsivefragments.js:40-46 | the dispatcher does nothing for rung 0 and otherwise cascades from the detected rung, or from the top rung when nothing was detected |
| CascadeLoader.DetectRungName | js/src/jquery.responsivefragments.js:33-37 | the bare name of each rung is detected as that rung |
| CascadeLoader.DispatchCases | js/src/jquery.responsivefragments.js:40-46 | the three cases: no or unknown marker cascades from `device-wide`; `device-smartphone` does nothing; any other rung name cascades from its rung |
| CascadeLoader.DispatchFallbackIsWide | js/src/jquery.responsivefragments.js:40-43 | a failed read or an unknown marker does exactly what the marker `device-wide` does |
| CascadeLoader.DispatchQuoted | js/src/jquery.responsivefragments.js:34-35 | a rung name in one layer of double quotes dispatches like the bare name |
| CascadeLoader.DispatchMonotone | js/src/jquery.responsivefragments.js:57 | the dispatcher never turns a flag back to false |
| CascadeLoader.DispatchIdempotent | js/src/jquery.responsivefragments.js:54-61 | running the dispatcher again with the same marker on the same page starts nothing and changes no flag |
| CascadeLoader.Device.constructor | js/src/jquery.responsivefragments.js:24-27 | a ladder object starts with its name and parent, unloaded |
| CascadeLoader.LoadHTMLFragments.constructor | js/src/jquery.responsivefragments.js:23-27 | the `devices` array carries the ladder's names and parents, every flag is false and nothing has been started; the four objects are new, so the dispatcher may update them |
| CascadeLoader.LoadHTMLFragments.GetDevice | js/src/jquery.responsivefragments.js:66-77 | null iff no object has the name; otherwise the object at the highest index with that name, found counting down |
| CascadeLoader.LoadHTMLFragments.FoundIsOnRung | js/src/jquery.responsivefragments.js:66-77 | an object `getDevice` finds sits on its name's rung |
| CascadeLoader.LoadHTMLFragments.NotFoundIsOffLadder | js/src/jquery.responsivefragments.js:66-77 | when `getDevice` finds nothing, the name is not on the ladder |
| CascadeLoader.LoadHTMLFragments.DevicesDistinct | js/src/jquery.responsivefragments.js:23-27 | the four ladder objects are distinct objects |
| CascadeLoader.LoadHTMLFragments.Each | js/src/jquery.responsivefragments.js:55-58 | the log grows by exactly that rung's `.each` loads; the flag ends set iff it was set or an element was visited |
| CascadeLoader.LoadHTMLFragments.LoadFragment | js/src/jquery.responsivefragments.js:50-63 | the flags and the log after the call are those `Cascade` gives from the rung of the name |
| CascadeLoader.LoadHTMLFragments.DetectDevice | js/src/jquery.responsivefragments.js:32-38 | the object found is the detected rung's, and null means nothing was detected |
| CascadeLoader.LoadHTMLFragments.CheckDeviceCategory | js/src/jquery.responsivefragments.js:30-47 | the flags and the log after the call are those `Dispatch` gives for the marker |
| CascadeLoader.Start | js/src/jquery.responsivefragments.js:20-88 | the IIFE without its resize registration: after building the `devices` array and running the first dispatch (line 87), the flags and the log are those `Dispatch` gives from the page-load state; the object and its four devices are new, so later resize dispatches may update them |
| SwitchLoader.CategoryKey | js/src/jquery.responsive-fragments.js:21-29 | undefined iff the read threw; otherwise -1 iff the normalised marker is not in the sequence, else an index holding it |
| SwitchLoader.KeyOfName | js/src/jquery.responsive-fragments.js:28 | each name of the sequence is its own key |
| SwitchLoader.SequenceDistinct | js/src/jquery.responsive-fragments.js:13 | the four names are pairwise distinct |
| SwitchLoader.Loader | js/src/jquery.responsive-fragments.js:59-86 | the body shared by the three loaders: with the flag set it does nothing and leaves it set; otherwise the flag ends set iff the `.each` started a load (`LoaderCharacterised` gives the loads) |
| SwitchLoader.LoadTablet | js/src/jquery.responsive-fragments.js:59-66 | `loadTabletFragments` on given flags and log: a no-op when `deviceTabletLoaded` is set, never touches the other two flags, and sets its own iff it started a load (`LoadersOwnFlag`) |
| SwitchLoader.LoadDesktop | js/src/jquery.responsive-fragments.js:69-76 | `loadDesktopFragments`: a no-op when `deviceDesktopLoaded` is set, never touches the other two flags, and sets its own iff it started a load (`LoadersOwnFlag`) |
| SwitchLoader.LoadWide | js/src/jquery.responsive-fragments.js:79-86 | `loadWideFragments`: a no-op when `deviceWideLoaded` is set, never touches the other two flags, and sets its own iff it started a load (`LoadersOwnFlag`) |
| SwitchLoader.Switch | js/src/jquery.responsive-fragments.js:33-54 | the `switch` on the key from given flags and log: key 0 changes nothing and no flag is cleared; `SwitchCharacterised` gives it in closed form |
| SwitchLoader.Dispatch | js/src/jquery.responsive-fragments.js:20-56 | `checkDeviceCategory` from given flags: key 0 starts nothing and no flag is cleared; `DispatchCharacterised` gives it in closed form |
| SwitchLoader.LoadersOwnFlag | js/src/jquery.responsive-fragments.js:59-86 | each loader touches only its own flag; the flag ends set iff it was set or an element carries the loader's attribute; loads are appended only when the flag was clear |
| SwitchLoader.LoaderCharacterised | js/src/jquery.responsive-fragments.js:59-66 | a loader on a clear flag starts its `.each` loads and sets the flag iff an element carries the attribute; on a set flag it does nothing |
| SwitchLoader.SwitchAppends | js/src/jquery.responsive-fragments.js:33-54 | the `switch` only appends to the log, and what it appends does not depend on the earlier log |
| SwitchLoader.SwitchCharacterised | js/src/jquery.responsive-fragments.js:33-54 | level 1 runs tablet, level 2 tablet then desktop, level 3 or `default` tablet, desktop then wide; each loader loads only when its flag is clear and sets the flag only if it loads |
| SwitchLoader.DispatchCharacterised | js/src/jquery.responsive-fragments.js:20-56 | the same closed form, with the level taken from the marker |
| SwitchLoader.DispatchSmartphoneIsNoOp | js/src/jquery.responsive-fragments.js:34-35 | key 0 starts nothing and changes no flag |
| SwitchLoader.DispatchDefaultIsWide | js/src/jquery.responsive-fragments.js:48-53 | a failed read or an unknown marker does exactly what key 3 does |
| SwitchLoader.DispatchQuoted | js/src/jquery.responsive-fragments.js:24-25 | a name of the sequence in one layer of double quotes dispatches like the bare name |
| SwitchLoader.DispatchMonotone | js/src/jquery.responsive-fragments.js:59-86 | no flag goes back to false |
| SwitchLoader.DispatchNeverLoadsSmartphone | js/src/jquery.responsive-fragments.js:33-54 | every started load is one a tablet, desktop or wide element asked for |
| SwitchLoader.SmartphoneOnlyPageLoadsNothing | js/src/jquery.responsive-fragments.js:33-54 | on a page with no tablet, desktop or wide elements no marker starts a load |
| SwitchLoader.DispatchIdempotent | js/src/jquery.responsive-fragments.js:59-86 | a repeated call with the same marker starts nothing and changes no flag |
| SwitchLoader.ResponsiveFragments.constructor | js/src/jquery.responsive-fragments.js:16-18 | all three flags start false and nothing has been started |
| SwitchLoader.ResponsiveFragments.Each | js/src/jquery.responsive-fragments.js:61-64 | the log grows by exactly that attribute's `.each` loads; the result is whether the callback ran |
| SwitchLoader.ResponsiveFragments.LoadTabletFragments | js/src/jquery.responsive-fragments.js:59-66 | the new flags and log are `LoadTablet` of the old ones, and only the tablet flag and the log may change |
| SwitchLoader.ResponsiveFragments.LoadDesktopFragments | js/src/jquery.responsive-fragments.js:69-76 | the new flags and log are `LoadDesktop` of the old ones, and only the desktop flag and the log may change |
| SwitchLoader.ResponsiveFragments.LoadWideFragments | js/src/jquery.responsive-fragments.js:79-86 | the new flags and log are `LoadWide` of the old ones, and only the wide flag and the log may change |
| SwitchLoader.ResponsiveFragments.CheckDeviceCategory | js/src/jquery.responsive-fragments.js:20-56 | the new flags and log are the `switch` applied to the old ones for the marker's key |
| Agreement.SameCategoryNames | js/src/jquery.responsive-fragments.js:13 | both scripts list the same four names in the same order |
| Agreement.KeysAreRungNames | js/src/jquery.responsive-fragments.js:59-86 | the three loaders query the names of rungs 1 to 3 |
| Agreement.SameDetection | js/src/jquery.responsive-fragments.js:21-29 | `getDevice` detects a rung iff `indexOf` gives a non-negative key, and then the rung is the key; the `switch` level is the rung the cascade starts from |
| Agreement.DownContents | js/src/jquery.responsivefragments.js:53-62 | the loads of rungs n down to 0 are, as a multiset, the sum of each rung's loads |
| Agreement.FreshFlagsAtRung | js/src/jquery.responsive-fragments.js:33-54 | from page load, cascading from rung n sets the same tablet, desktop and wide flags as the `switch` at level n |
| Agreement.FreshLoadsAtRung | js/src/jquery.responsive-fragments.js:33-54 | from page load, cascading from rung n starts the `switch`'s loads at level n, apart from order, plus the smartphone loads when n > 0 |
| Agreement.FreshAgreement | js/src/jquery.responsive-fragments.js:20-56 | from page load, for every marker, both scripts leave the same three flags and start the same loads up to order, except the cascade's smartphone loads |
| Agreement.ExampleBindings | js/src/jquery.responsivefragments.js:55-58 | on the example page only the tablet and desktop `.each` load something, one element each |
| Agreement.DesktopMarkerIsTwo | js/src/jquery.responsive-fragments.js:28 | both scripts read `device-desktop` as rung and key 2 |
| Agreement.DesktopRungIsTwo | js/src/jquery.responsivefragments.js:66-77 | `device-desktop` is detected as rung 2 |
| Agreement.CascadeExampleFromDesktop | js/src/jquery.responsivefragments.js:50-63 | `loadFragment("device-desktop")` from page load on the example loads desktop, then tablet, and sets those two flags only |
| Agreement.CascadeDesktopExample | js/src/jquery.responsivefragments.js:30-47 | on the example, the marker `device-desktop` loads desktop then tablet and visits smartphone without loading anything |
| Agreement.SwitchDesktopExample | js/src/jquery.responsive-fragments.js:20-56 | on the example, the marker `device-desktop` loads tablet then desktop |

## Left out

- jQuery's `$(el).load(url)`, the HTTP fetch and the insertion of the response are not modelled. Each call is one entry appended to the `started` log. Completion is asynchronous and its failure handling lives in jQuery.
- The page does not change between calls. Inserted fragments are assumed to carry no further `data-device-*` elements.
- jQuery's `.data()` type conversion is not modelled: the URL is the attribute's string value.
- `getComputedStyle(...).getPropertyValue('content')` is a browser query. It is an `Option<string>` input, with `None` for the exception the `try` swallows.
- Registering the resize handler (js/src/jquery.responsivefragments.js:82-84) and the event loop are not modelled. A resize is another `CheckDeviceCategory` call (`DispatchIdempotent` covers a resize that keeps the category).
- The implicit globals that both files share (`deviceCategory`, `checkDeviceCategory`) are not modelled. The two scripts are separate modules. `window.LoadHTMLFragments` receives the value of the first `checkDeviceCategory()` call, which is `undefined`, so it is not modelled either. The IIFE itself, including that first dispatch at line 87, is `CascadeLoader.Start`. The `LoadHTMLFragments` constructor is the state before that dispatch.
- CascadeLoader.LoadHTMLFragments.LoadFragment: requires the name to be on the ladder. For any other name the script throws a `TypeError` at line 54. The dispatcher never passes such a name.
- CascadeLoader.Cascade: the value-level specification recurses on rung `i - 1` rather than on the parent's name. `ParentIsRungBelow` shows that the two are the same rung. `LoadHTMLFragments.LoadFragment` does look the parent name up with `getDevice`, and its contract ties it to `Cascade`.
