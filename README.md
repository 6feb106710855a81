# Interaction logic of the Austria information site, in Dafny

The site about Austria comes in two versions. One is a vanilla-DOM site driven by `app.js`. The other is a React version under `src/`. Apart from markup, the logic of both versions is the set of small state machines and transformations modelled here:

- **app.js manual slider** (`Sliders.setupManual`). A cursor over the slides. `goTo` ignores targets out of range, so the previous/next buttons and the arrow keys clamp at the ends. `update` derives the strip offset, the single active dot and the disabled boundary buttons from the cursor. Module `ManualSlider`; the class `Slider` holds the closure variables and the dot array.
- **app.js automatic slider** (`Sliders.setupAuto`). An index advanced by `(i + 1) % n` on every interval tick. A `{running, stopped}` timer is paused by hovering and restarted by leaving or by a dot click. Module `AutoSlider`. Browser intervals are a table of live timer ids, and time is a sequence of tick events.
- **React slider hooks** (`useManualSlider`, `useAutoSlider`). These wrap cyclically and store `navigateToSlide`'s argument unchecked. The automatic hook clears its interval and sets a new one on every index change. Modules `ManualSliderHook` and `AutoSliderHook`. They are kept apart from the app.js sliders because the two policies differ.
- **app.js theme** (`UI.initializeThemeToggle`). The root `dark` class, the stored `theme` entry, and the click that flips the class, stores `'dark'`/`'light'` and re-themes every chart. Module `SiteTheme`.
- **app.js chart registry** (`Charts`). The registered charts, the library defaults, and `updateAllTheme`. That function overwrites the colour of each existing `ticks`, `grid` and legend `labels` object in place, then redraws. Module `ChartTheme`, over the option tree of module `ChartConfig`.
- **ChartWrapper component**. It rebuilds `scales` and `plugins.legend.labels` with the theme colours. It colours a copy of the first dataset (`generateChartColors`), and destroys and recreates the chart on each effect run. Module `ChartWrapper`.
- **ThemeToggle component**. The initial theme string, the toggle updater, and the effect that writes the root class and storage. Module `ThemeToggle`.
- **app.js path rules**. Active navigation links, `App.page`, and the fragment path chosen by `loadComponent`. Module `PathRules`.

Shared helpers: `Wrappers` (Option), `Marks` (the "flag at the cursor" lists both app.js sliders render) and `Modular` (remainder arithmetic).

Four behaviours of the code are worth knowing before reading the model:

- The two slider families use different policies. The app.js manual slider clamps at the ends, and the React hooks wrap around. Both are modelled, separately.
- `ThemeToggle.jsx` keeps any non-empty stored theme string verbatim, so its theme is not always `'dark'` or `'light'` (`ThemeToggle.InitialThemeShape`).
- Neither theme implementation catches an exception from storage. The model has no storage failure.
- In `setupAuto` the slides and the dots are two separate element lists. Clicking a dot past the last slide stores an index that no slide shows (`AutoSlider.RunStaysInRange`).

## Model

| member | source | states |
|---|---|---|
| ManualSlider.GoToTarget | app.js:459-462 | the cursor after `goTo(index)`: the index when it is in range, else the cursor unchanged; its properties are `GoToKeepsRange` and `ClampsAtEnds` |
| ManualSlider.Step | app.js:465-471 | the cursor after one click, arrow key or dot click; button clicks count only when the button exists; its properties are `StepMovesAtMostOne`, `ClampsAtEnds` and `RunStaysInRange` |
| ManualSlider.GoToKeepsRange | app.js:459-462 | `goTo` keeps an in-range cursor in range, and a changed cursor equals the target |
| ManualSlider.StepMovesAtMostOne | app.js:465-471 | prev/next clicks and arrow keys move the cursor by at most one slide |
| ManualSlider.RunStaysInRange | app.js:438-471 | starting in range, every sequence of prev/next/arrow/dot events keeps `0 <= current < len` |
| ManualSlider.ClampsAtEnds | app.js:459-471 | previous (button or ArrowLeft) at slide 0 and next (button or ArrowRight) at the last slide leave the cursor in place |
| ManualSlider.RenderedView | app.js:452-457 | after `update`, prev is disabled iff the cursor is 0, next iff it is `len-1`, and exactly the dot at the cursor is active |
| ManualSlider.Slider.constructor | app.js:438-450 | dots are created, one per slide, and slide 0 is rendered |
| ManualSlider.Slider.Update | app.js:452-457 | offset `-current*100`, dot `i` active iff `i == current`, and the flags of the existing buttons are set from the cursor |
| ManualSlider.Slider.GoTo | app.js:459-463 | an out-of-range index leaves cursor and view untouched; otherwise the cursor becomes the index and the view is re-rendered |
| ManualSlider.Slider.Handle | app.js:465-471 | each event moves the cursor as the pure step says; button events need the button to exist |
| ManualSlider.Setup | app.js:430-474 | no slider without a strip, a dots container or slides; otherwise a rendered slider at 0 that listens to exactly the buttons found |
| Marks.ExactlyOneMarked | app.js:454 | the flag list for a cursor in range has exactly one set flag, at the cursor |
| AutoSlider.Advance | app.js:496 | `nextSlide`'s `(i + 1) % n`; its iteration is stated by `TicksAdvanceModulo` |
| AutoSlider.Step | app.js:496-509 | the index and the running flag after a tick, hover, leave or dot click; its properties are `TimerRules`, `PausedStaysPut` and `RunStaysInRange` |
| AutoSlider.TicksAdvanceModulo | app.js:496 | while running, `k` ticks from an index `i` in range give `(i+k) mod n` |
| AutoSlider.TicksFromSetup | app.js:511-512 | from the state after setup, `k` ticks give `k mod n`, still running |
| AutoSlider.ThreeSlidesNineSeconds | app.js:481-496 | 3 slides and 9000 ms at the 3000 ms interval end on slide 0 |
| AutoSlider.TimerRules | app.js:497-509 | hovering stops and leaving starts, each idempotent and keeping the index; a dot click gives running at that dot |
| AutoSlider.PausedStaysPut | app.js:497-508 | once stopped, ticks and further hovers change neither index nor state |
| AutoSlider.RunStaysInRange | app.js:485-506 | the index stays below the larger of the slide and dot counts, and below the slide count when there are no more dots than slides |
| AutoSlider.Slider.constructor | app.js:487-512 | after `showSlide(0); start()` the index is 0 with exactly one live timer |
| AutoSlider.Slider.ShowSlide | app.js:490-494 | the index is stored, only the slide at it is visible, and only the dot at it is active |
| AutoSlider.Slider.Start | app.js:497 | a second start creates no timer; a start with no timer creates exactly one new one |
| AutoSlider.Slider.Stop | app.js:498 | afterwards no timer is remembered or live, whatever the state was |
| AutoSlider.Slider.Tick | app.js:496 | a live interval advances the index to `(i+1) % n`; the timer is unchanged |
| AutoSlider.Slider.MouseEnter | app.js:508 | hovering leaves the slider stopped with no live timer |
| AutoSlider.Slider.MouseLeave | app.js:497-509 | leaving leaves the slider running with one live timer; a timer that is already remembered is kept, not replaced |
| AutoSlider.Slider.DotClick | app.js:500-506 | a dot click shows that dot's index and runs on a fresh timer that replaces the old one |
| AutoSlider.Setup | app.js:481-512 | no slider when the root is missing; otherwise the initial running state over the slides and dots found, with one live timer and the given or default (3000) interval |
| ManualSliderHook.PreviousIndex | src/hooks/useManualSlider.js:7-8 | the index `navigateToPrevious` stores; its properties are `NavigatorsAreModular`, `NavigatorsKeepRange`, `NavigatorsAreInverse` and `NoSlidesLeavesRange` |
| ManualSliderHook.NextIndex | src/hooks/useManualSlider.js:13-14 | the index `navigateToNext` stores; its properties are the same four lemmas and `FullCycleReturns` |
| ManualSliderHook.NavigatorsAreModular | src/hooks/useManualSlider.js:6-16 | in range, next is `(i+1) mod n` and previous is `(i-1+n) mod n` |
| ManualSliderHook.NavigatorsKeepRange | src/hooks/useManualSlider.js:6-16 | both navigators keep an index in `[0, n-1]` |
| ManualSliderHook.NavigatorsAreInverse | src/hooks/useManualSlider.js:6-16 | next then previous, and previous then next, return to the start |
| ManualSliderHook.NoSlidesLeavesRange | src/hooks/useManualSlider.js:6-16 | with no slides the navigators give -1 and 1; nothing guards the count |
| ManualSliderHook.RunStaysInRange | src/hooks/useManualSlider.js:4-20 | for `n >= 1`, any sequence of previous/next and in-range jumps keeps the index in `[0, n-1]` |
| ManualSliderHook.NextTimesIsModular | src/hooks/useManualSlider.js:12-15 | `k` nexts from `i` give `(i+k) mod n` |
| ManualSliderHook.FullCycleReturns | src/hooks/useManualSlider.js:12-15 | `n` consecutive nexts return to the start |
| ManualSliderHook.Hook.constructor | src/hooks/useManualSlider.js:3-4 | the index starts at 0 |
| ManualSliderHook.Hook.NavigateToPrevious | src/hooks/useManualSlider.js:6-10 | 0 becomes `n-1`, any other `i` becomes `i-1` |
| ManualSliderHook.Hook.NavigateToNext | src/hooks/useManualSlider.js:12-16 | `n-1` becomes 0, any other `i` becomes `i+1` |
| ManualSliderHook.Hook.NavigateToSlide | src/hooks/useManualSlider.js:18-20 | the index becomes the argument, unchecked |
| ManualSliderHook.Hook.SetProps | src/hooks/useManualSlider.js:3 | a re-render with a new `slidesCount` prop: the navigators read the new count, and the index is kept |
| AutoSliderHook.TicksAdvanceModulo | src/hooks/useAutoSlider.js:22-23 | `k` ticks from `i` in range, with no other event, give `(i+k) mod n` |
| AutoSliderHook.Hook.constructor | src/hooks/useAutoSlider.js:3-4 | the index starts at 0, the interval defaults to 5000, and the mount effect leaves one live timer |
| AutoSliderHook.Hook.RestartTimer | src/hooks/useAutoSlider.js:22-25 | the effect's cleanup and re-run replace the live timer by a single new one |
| AutoSliderHook.Hook.Commit | src/hooks/useAutoSlider.js:6-25 | a new index restarts the timer; the same index changes nothing |
| AutoSliderHook.Hook.NavigateToPrevious | src/hooks/useAutoSlider.js:6-10 | the manual hook's previous step, with one live timer afterwards; the timer is replaced iff the index changed |
| AutoSliderHook.Hook.NavigateToNext | src/hooks/useAutoSlider.js:12-16 | the manual hook's next step, with one live timer afterwards; the timer is replaced iff the index changed |
| AutoSliderHook.Hook.NavigateToSlide | src/hooks/useAutoSlider.js:18-20 | the index becomes the argument, unchecked, with one live timer afterwards; the timer is replaced iff the index changed |
| AutoSliderHook.Hook.IntervalElapsed | src/hooks/useAutoSlider.js:23 | a tick is `navigateToNext`: the props are kept, and the timer is replaced iff the index changed |
| AutoSliderHook.Hook.SetProps | src/hooks/useAutoSlider.js:3-25 | a new slide count or interval restarts the timer; unchanged props keep it |
| AutoSliderHook.Hook.Unmount | src/hooks/useAutoSlider.js:24 | after unmount no timer is live |
| ChartTheme.ColorsFor | app.js:295-298 | the text and grid colours of each theme; `PalettesDiffer` states that the themes differ |
| ChartTheme.DefaultsFor | app.js:259-268 | the library defaults for a theme: the Inter font and that theme's text and grid colours; stated through `Registry.ApplyDefaults` |
| ChartTheme.RethemeScale | app.js:302-306 | one scale with each existing `ticks` and `grid` recoloured; its effect on whole options is stated by `RethemeOptions` |
| ChartTheme.RethemeLegend | app.js:308-310 | the legend labels recoloured when the whole `plugins.legend.labels` path exists; stated by `RethemeOptions` and `AxisFreeChartOnlyLegend` |
| ChartTheme.PalettesDiffer | app.js:295-298 | dark and light text and grid tokens differ |
| ChartTheme.RethemeOptions | app.js:300-310 | every existing ticks/grid gets text/grid colour, legend labels get text colour when the whole path exists, and nothing else changes or appears |
| ChartTheme.RethemeLastWins | app.js:292-310 | re-theming twice equals re-theming once with the second palette |
| ChartTheme.AxisFreeChartOnlyLegend | app.js:302-310 | a chart without scales only has its legend recoloured |
| ChartTheme.Registry.constructor | app.js:254 | the registry starts empty |
| ChartTheme.Registry.ApplyDefaults | app.js:259-268 | defaults are the Inter font, the theme's text colour and its grid colour |
| ChartConfig.Chart.constructor | app.js:281 | `new Chart(...)`: the chart holds the given type, data and options, not yet redrawn or destroyed |
| ChartTheme.Registry.LazyInit | app.js:279-283 | a new chart is created with the given config and appended to the registry |
| ChartTheme.Registry.RethemeChart | app.js:300-312 | one chart's options become the re-themed options and it is redrawn once |
| ChartTheme.Registry.UpdateAllTheme | app.js:292-313 | new defaults, then every registered chart re-themed and redrawn; the registry is unchanged |
| SiteTheme.InitiallyDark | app.js:138-140 | the start-up test for dark; its two cases are `StoredValueWins` and `SystemPreferenceFallback` |
| SiteTheme.StoredFor | app.js:147 | the string a click stores for a theme; `StoredThemeSurvivesReload` states that it reads back as that theme |
| SiteTheme.StoredValueWins | app.js:138-140 | a non-empty stored value decides alone: dark iff it is `'dark'` |
| SiteTheme.SystemPreferenceFallback | app.js:138-140 | with no or an empty stored value, dark iff the system prefers dark |
| SiteTheme.StoredThemeSurvivesReload | app.js:140-147 | the string a click stores is read back as the same theme on the next load |
| SiteTheme.Toggle | app.js:146-147 | a click flips the flag and stores a string that reloads as the new flag |
| SiteTheme.TwoTogglesRestore | app.js:146-147 | two clicks restore the flag and store its string; the state comes back iff that string was already stored |
| SiteTheme.ThemeToggle.constructor | app.js:133-134 | the root class and the stored entry as the page has them |
| SiteTheme.ThemeToggle.Initialize | app.js:132-145 | without the button nothing changes; otherwise the dark class is added when the start-up test says dark and the listener is attached |
| SiteTheme.ThemeToggle.Click | app.js:145-149 | the click toggles flag and storage, sets the new theme's defaults, and re-themes and redraws every chart once, keeping its data and destroyed flag; with no listener nothing changes |
| SiteTheme.TwoClicksRestoreChartColours | app.js:145-149 | after two clicks every chart carries the original theme's colours |
| ChartWrapper.GridColor | src/components/ChartWrapper.jsx:42 | the grid colour of each theme; `TokensDifferByTheme` states that the themes differ |
| ChartWrapper.TextColor | src/components/ChartWrapper.jsx:43 | the text colour of each theme; `TokensDifferByTheme` states that the themes differ |
| ChartWrapper.ThemedScale | src/components/ChartWrapper.jsx:68-78 | one rebuilt scale entry; stated per scale by `ThemedOptions` |
| ChartWrapper.ThemedPlugins | src/components/ChartWrapper.jsx:81-84 | the rebuilt `plugins` object; stated by `ThemedOptions` |
| ChartWrapper.Hue | src/components/ChartWrapper.jsx:19-20 | the hue of one value; its properties are `HueInRange`, `HueFollowsValue` and `EqualValuesShareOneColour` |
| ChartWrapper.TokensDifferByTheme | src/components/ChartWrapper.jsx:41-43 | the dark and light grid and text tokens differ |
| ChartWrapper.ThemedOptions | src/components/ChartWrapper.jsx:61-85 | scales keep exactly the input key set (empty when absent), and each gets grid/ticks colours with its other fields kept; legend labels get the text colour; `plugins`, `legend` and `labels` keep their other fields, or hold nothing else when they were absent |
| ChartWrapper.ThemedOptionsLastWins | src/components/ChartWrapper.jsx:64-85 | rebuilding for one theme and then another equals rebuilding for the second |
| ChartWrapper.Min | src/components/ChartWrapper.jsx:16 | the minimum is a member and no larger than any value |
| ChartWrapper.Max | src/components/ChartWrapper.jsx:17 | the maximum is a member and no smaller than any value |
| ChartWrapper.HueInRange | src/components/ChartWrapper.jsx:19-20 | a hue between the bounds lies in `[0, 120]` |
| ChartWrapper.HueFollowsValue | src/components/ChartWrapper.jsx:19-20 | hue grows with the value, or shrinks when lower is better |
| ChartWrapper.GenerateChartColors | src/components/ChartWrapper.jsx:15-23 | one HSL colour per value, saturation 80, lightness 50, hue in `[0, 120]` |
| ChartWrapper.ColoursFollowValues | src/components/ChartWrapper.jsx:15-22 | a larger value never gets a redder colour (a greener one when lower is better) |
| ChartWrapper.EqualValuesShareOneColour | src/components/ChartWrapper.jsx:19-20 | equal values are all green, or all red when lower is better |
| ChartWrapper.ColorizedData | src/components/ChartWrapper.jsx:50-57 | only the copy's first dataset gets one colour per value; everything else equals the input |
| ChartWrapper.Wrapper.constructor | src/components/ChartWrapper.jsx:34 | the chart reference starts empty |
| ChartWrapper.Wrapper.RunEffect | src/components/ChartWrapper.jsx:36-86 | with no canvas neither the wrapper nor its chart changes; otherwise the old chart is destroyed and a fresh one holds the coloured data and themed options |
| ChartWrapper.Wrapper.Cleanup | src/components/ChartWrapper.jsx:89-94 | the chart is destroyed and the reference cleared |
| ThemeToggle.InitialTheme | src/components/ThemeToggle.jsx:5-10 | the lazy initialiser of the theme; its properties are `InitialThemeShape`, `NoWindowMeansLight` and `StoredThemeSurvivesReload` |
| ThemeToggle.NextTheme | src/components/ThemeToggle.jsx:23 | the updater `toggleTheme` passes; its properties are `NextThemeFlips` and `ToggleTwiceIdentity` |
| ThemeToggle.InitialThemeShape | src/components/ThemeToggle.jsx:5-10 | the initial theme is never empty; it is dark or light unless a non-empty stored string is kept verbatim |
| ThemeToggle.NoWindowMeansLight | src/components/ThemeToggle.jsx:6-9 | with no `window` the initial theme is `'light'` |
| ThemeToggle.StoredThemeSurvivesReload | src/components/ThemeToggle.jsx:7-19 | the theme the effect stores is the theme the next mount starts with |
| ThemeToggle.NextThemeFlips | src/components/ThemeToggle.jsx:23 | toggling always changes the theme: dark to light, anything else to dark |
| ThemeToggle.ToggleTwiceIdentity | src/components/ThemeToggle.jsx:23 | two toggles are the identity exactly on `'dark'` and `'light'` |
| ThemeToggle.Component.constructor | src/components/ThemeToggle.jsx:5-10 | the first render's theme is the initialiser's value |
| ThemeToggle.Component.SyncEffect | src/components/ThemeToggle.jsx:12-20 | the root has `dark` iff the theme is `'dark'`, and storage holds the theme |
| ThemeToggle.Component.Click | src/components/ThemeToggle.jsx:22-24 | the theme is toggled and the effect leaves root and storage in sync |
| PathRules.IsActiveNavLink | app.js:163-164 | the test that marks a link active; its two cases are `ActiveOffRootMeansSamePath` and `ActiveOnRoot` |
| PathRules.ActiveOffRootMeansSamePath | app.js:163-164 | off a root path, a link is active iff its path equals the current path |
| PathRules.ActiveOnRoot | app.js:163-164 | on a root path, a link is active iff it is the current path or ends in `/index.html` |
| PathRules.UpdateActiveNavLinks | app.js:155-168 | afterwards each link is active exactly when it matches the current path |
| PathRules.LastSegment | app.js:566 | the last segment has no `/`, ends the path, and is preceded by a `/` when shorter than the path |
| PathRules.FirstOccurrence | app.js:566 | the position where the pattern first occurs: it occurs there, and at no earlier position |
| PathRules.ReplaceFirst | app.js:566 | when the pattern occurs, its first occurrence alone is swapped for the replacement; otherwise the text is unchanged |
| PathRules.PageName | app.js:566 | `App.page`; its properties are `PageNameShape`, `PageNameOfHtmlFile` and `DirectoryIsIndex` |
| PathRules.PageNameShape | app.js:566 | the page name is never empty and has no `/` |
| PathRules.PageNameOfHtmlFile | app.js:566 | `dir/name.html` is page `name` whenever `name` does not itself contain `.html` |
| PathRules.DirectoryIsIndex | app.js:566 | a path ending in `/` is page `'index'` |
| PathRules.IsSubPage | app.js:22 | the page lives under `/pages/`; stated through `ComponentPath` |
| PathRules.ComponentPath | app.js:22-23 | exactly `includes/<name>.html`, with `../` in front iff the page is under `/pages/`: the suffix, the prefix test and the length together fix the result |

## Left out

- Fetching and injecting fragments in `loadComponent` (app.js:25-63) is left out. This covers the network and `innerHTML`, the regular-expression replacements, and the header link rewriting for sub-pages. Only the choice of fragment path is modelled.
- The mobile menu, modals, scroll-to-top button, Escape handlers and scroll animations are left out, in app.js and in the React components. They are DOM wiring.
- The observer in `lazyInit` is not modelled: visibility detection and the one-shot disconnect. `ChartTheme.Registry.LazyInit` is what the first firing does.
- Chart.js itself is not modelled: rendering, the chart config factories and `useCharts`. `chart.update()` is a redraw counter and `destroy()` a flag.
- Real time is not modelled. A timer is an id in a table of live intervals, and its firing is a tick event. How long an interval takes is not modelled.
- AutoSlider.Slider.constructor: requires at least one slide. `setupAuto` does not guard a root without slides, and each tick would then store `NaN` as the index.
- AutoSlider.Setup: requires a found root to have at least one slide, for the same `NaN` reason.
- ManualSliderHook.Hook.NavigateToPrevious: each navigation is modelled as followed by a re-render. Two navigations inside one render read the same stale index in the source, and that case is not captured. The same holds for the other navigators of both hooks.
- AutoSliderHook.Hook.Commit: React's bail-out on an unchanged state value is modelled as "no re-render". A render that React performs and then discards is not modelled.
- ChartWrapper.GenerateChartColors: hues are exact reals. Floating-point rounding, `NaN`/`Infinity` inputs and the formatting of the `hsl(...)` string are not modelled.
- ChartWrapper.ColorizedData: the JSON deep copy is the identity on the modelled values. The properties that JSON drops (functions, `undefined`) are not modelled.
- `backgroundColor` is modelled as a list of colours. A single colour string is a one-element list.
- Chart options are records whose `rest` stands for every property the code neither reads nor writes. A scale entry that is `null` is not modelled. app.js throws on it (`scale.ticks`). ChartWrapper keeps its key and builds `{grid: {color}, ticks: {color}}` for it. That is the result `ThemedOptions` gives for `Scale(None, None, map[])`.
- Navigation links are given by their URL path. `new URL(link.href)` is not modelled.
- The page path, the system colour-scheme preference and local storage are parameters. Storage exceptions are not modelled.
- ThemeToggle.InitialTheme: a missing `window.matchMedia` is not modelled here. `ThemeToggle.jsx` calls it unguarded, so with no usable stored value it throws. The model takes the preference as a plain parameter and has no such exception. app.js guards the call and reads a missing `matchMedia` as "prefers light", and `SiteTheme.InitiallyDark` is given that value.
- The rendering components `ManualSlider.jsx` and `AutoSlider.jsx` are not part of this model. `AutoSlider.jsx` destructures names that `useAutoSlider` does not return, so it is not wired to the hook.
- Pages, routing and static content are not part of this model.
