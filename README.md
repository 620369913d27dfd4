# System monitor widget: a Dafny model

This project models the logic of a desktop widget that shows simulated system telemetry: CPU, memory, GPU, disks, temperatures and network throughput. Every number the widget shows is made up by random draws on a timer. What can be specified is the state kept around those draws and the small rules applied to them:

- **Metric registry** (`MetricRegistry`, `metric_registry.dfy`). This is the ordered list of eleven display records: `cpuClock`, `upload`, `cpu`, `memory`, `gpu`, `disk`, `download`, `cpuTemp`, `mbdTemp`, `gpuTemp`, `diskTemp`. The widget does five things with it:
  - toggles a record's visibility;
  - reorders the list by drag and drop (the two `splice` calls of the drop handler, with the real `splice` index rules);
  - refreshes every record's reading from the latest telemetry (the two disk records also take the tracked disk's name as their label);
  - resolves the tracked disk;
  - filters what is drawn: the header slot, the ten list records, the "no visible metrics" placeholder and the footer.
- **Widget component** (`NetworkMonitor`, `network_monitor.dfy`). The component's state is a class, `Widget`, and each event handler is a method on it. It covers the pointer-drag state machine (press, move, release), the settings toggle, the layout switch, the disk picker, the drop handler and the refresh effect. The settings-panel placement rule is a function of the window size and the widget's bounding box.
- **Network hook** (`NetworkSpeed`, `network_speed.dfy`). One tick draws a download rate and an upload rate. A counter in the hook's closure lets the "active application" label change only on every third tick. Under heavy traffic the label becomes a random user application, otherwise `svchost.exe`. The tick is the method `SpeedHook.SimulateSpeed`, specified by the pure function `Tick`.
- **Hardware hook** (`HardwareStats`, `hardware_stats.dfy`). One tick overwrites eight fields. Each field is an affine image of a uniform draw into a fixed band. The disk list keeps its ids, names and length. The tick is the method `StatsHook.SimulateStats`, specified by `NextStats`.
- **Formatter** (`FormatSpeed`, `format_speed.dfy`). It picks B/s, KB/s, MB/s or GB/s over powers of 1024 and shows the quotient in that unit.
- `Sim` (`sim.dfy`) holds the shared parts: `Option`, the draws of `Math.random()` (reals in [0, 1), passed in as parameters), and the affine scaling of a draw onto a band.

Numbers are `real`. The source's numbers are doubles. Dividing by 1024 is exact in binary floating point, so the formatter's bands and quotients agree with the reals. The hardware hook's affine maps are not exact (see `HardwareStats.NextStats` under "## Left out"). Randomness, the clock and the window are inputs: each `Math.random()` result is a parameter, one tick is one method call, and the window and bounding-box sizes are parameters of the placement rule.

Behaviours of the code worth knowing:

- **A dropped record lands at the target's original index.** The drop handler looks up the target's index before it removes the dragged record, then inserts at that index. So the dragged record ends up before the target when it came from later in the list, and after the target when it came from earlier (`MetricRegistry.Reorder`, `MetricRegistry.MovedLanding`).
- **An unknown id still moves a record.** `findIndex` returns -1, and `splice` reads -1 as "the last element". An unknown dragged id therefore moves the last record to the target's index. An unknown target id puts the dragged record just before the last one. Either way the result is one move, so it is a permutation. Toggling an unknown id changes nothing (`MetricRegistry.ToggleUnknown`).
- **The drop guard also rejects the empty string.** `!draggedMetricId` is true for `""` as well as for no id. When the guard rejects, the handler returns without clearing the dragged id.
- **Initial network readings show 0.0 KB/s.** Before the first refresh, the upload and download records show "0.0 KB/s". That is not what the formatter gives for 0, which is 0.0 B/s.
- **An empty disk list is not handled.** The tracked-disk lookup falls back to `disks[0]`. With an empty list there is no disk, and the refresh would read a field of `undefined`. `Widget.Refresh` therefore requires a non-empty disk list, which the hardware hook always provides (three disks).

## Model

| member | source | states |
|---|---|---|
| `Sim.Scaled` | hooks/useHardwareStats.ts:29-50 | `lo + r * width` with r in [0,1) lies in [lo, lo + width) |
| `Sim.DrawIndex` | src/hooks/useNetworkSpeed.ts:37 | `Math.floor(r * n)` with r in [0,1) is a valid index below n |
| `FormatSpeed.FormatSpeed` | src/utils/formatSpeed.ts:1-18 | below 1024 the raw value in B/s; in [1024, 1024²) the rate over 1024 in KB/s; in [1024², 1024³) the rate over 1024² in MB/s; from 1024³ the rate over 1024³ in GB/s; outside B/s the shown value is at least 1, and below 1024 in KB/s and MB/s |
| `FormatSpeed.TierBands` | src/utils/formatSpeed.ts:1-18 | each unit is chosen exactly on its band of byte rates (both directions), so exactly one tier applies to every input |
| `FormatSpeed.TierMonotone` | src/utils/formatSpeed.ts:1-18 | a larger rate never gets a smaller unit |
| `FormatSpeed.ValueScalesBack` | src/utils/formatSpeed.ts:6-17 | the shown value times the unit's size is the byte rate |
| `FormatSpeed.BoundaryExamples` | src/utils/formatSpeed.ts:2-17 | 0 gives 0.0 B/s, 1023 stays in B/s, 1024 gives 1.0 KB/s, 1024² gives 1.0 MB/s, 1024³ gives 1.0 GB/s, each printed with its suffix " B/s", " KB/s", " MB/s" or " GB/s" |
| `HardwareStats.NextDisks` | hooks/useHardwareStats.ts:41-45 | the per-disk update keeps length, ids and names, and puts activity in [0, 100) and temperature in [30, 55) |
| `HardwareStats.UsedMemory` | hooks/useHardwareStats.ts:35 | a draw times a positive total lies in [0, total) |
| `HardwareStats.NextStats` | hooks/useHardwareStats.ts:26-51 | after a tick CPU% and GPU% lie in [0, 100), the clock in [3.5, 5.0), used memory in [0, total), CPU temperature in [45, 95), GPU temperature in [40, 90), motherboard temperature in [30, 50); the total is unchanged; the disks keep ids and names |
| `HardwareStats.InitialState` | hooks/useHardwareStats.ts:11-24 | the initial disks are ssd/SSD, hdd/HDD, nvme/NVME with zero readings; memory starts at 0 of 16 |
| `HardwareStats.MemoryStaysBounded` | hooks/useHardwareStats.ts:12-45 | over any run of ticks the total stays 16, the used amount stays within it, and the disk list keeps its ids and names |
| `HardwareStats.StatsHook.constructor` | hooks/useHardwareStats.ts:11-24 | the hook starts in the initial state, with its invariant |
| `HardwareStats.StatsHook.SimulateStats` | hooks/useHardwareStats.ts:26-51 | the fields after a tick are `NextStats` of the fields before; the invariant (total 16, used within it, the initial three disks) is kept and all bands hold |
| `NetworkSpeed.Without` | src/hooks/useNetworkSpeed.ts:36 | the filter keeps exactly the entries different from the excluded one |
| `NetworkSpeed.UserApps` | src/hooks/useNetworkSpeed.ts:3-11 | the user applications are the six catalogue entries other than `svchost.exe` |
| `NetworkSpeed.HighUsage` | src/hooks/useNetworkSpeed.ts:33 | defines heavy traffic: more than 40 MiB/s down or more than 5 MiB/s up |
| `NetworkSpeed.ChooseApp` | src/hooks/useNetworkSpeed.ts:33-40 | under heavy traffic the label is a catalogue entry other than `svchost.exe`; otherwise it is `svchost.exe` |
| `NetworkSpeed.Tick` | src/hooks/useNetworkSpeed.ts:20-41 | download lies in [0, 100·1024²) and upload in [0, 20·1024²); the counter resets to 0 when its increment exceeds 2, otherwise it is incremented and the label is kept |
| `NetworkSpeed.LabelTick` | src/hooks/useNetworkSpeed.ts:29-41 | from a counter in {0,1,2} a tick leaves it in {0,1,2}; it sets the label exactly when the counter was 2, and otherwise keeps it |
| `NetworkSpeed.CounterCycles` | src/hooks/useNetworkSpeed.ts:16-32 | from the initial state, after n ticks the counter is n mod 3, and during the first two ticks the label is still `chrome.exe` |
| `NetworkSpeed.LabelOnlyEveryThirdTick` | src/hooks/useNetworkSpeed.ts:29-44 | tick n (the initial call being tick 1) keeps the label unless n is a multiple of 3; on those ticks it sets the label chosen from that tick's rates |
| `NetworkSpeed.SpeedHook.constructor` | src/hooks/useNetworkSpeed.ts:14-19 | both rates start at 0, the label at `MOCK_APPS[0]`, the counter at 0 |
| `NetworkSpeed.SpeedHook.SimulateSpeed` | src/hooks/useNetworkSpeed.ts:20-42 | the state after a tick is `Tick` of the state before; the counter stays the number of ticks mod 3, in {0,1,2} |
| `MetricRegistry.InitialRegistry` | src/components/NetworkMonitor.tsx:40-52 | the registry starts with eleven visible records with distinct ids, `cpuClock` first |
| `MetricRegistry.Toggled` | src/components/NetworkMonitor.tsx:132-134 | only the records with that id flip `visible`; every other field, every other record and the order are unchanged |
| `MetricRegistry.ToggleTwice` | src/components/NetworkMonitor.tsx:133 | toggling the same id twice restores the list |
| `MetricRegistry.ToggleUnknown` | src/components/NetworkMonitor.tsx:133 | toggling an id that names no record changes nothing |
| `MetricRegistry.Remove` | src/components/NetworkMonitor.tsx:153 | removing one element shortens the list by one |
| `MetricRegistry.Insert` | src/components/NetworkMonitor.tsx:154 | inserting one element lengthens the list by one |
| `MetricRegistry.Moved` | src/components/NetworkMonitor.tsx:153-154 | a remove followed by an insert keeps the length |
| `MetricRegistry.MovedAt` | src/components/NetworkMonitor.tsx:153-154 | index by index, a move puts the moved element at its new index, shifts the elements in between by one, and leaves the rest in place |
| `MetricRegistry.MovedPermutation` | src/components/NetworkMonitor.tsx:153-154 | a move is a permutation (same multiset) |
| `MetricRegistry.MovedInverse` | src/components/NetworkMonitor.tsx:153-154 | moving back from the new index to the old one restores the list |
| `MetricRegistry.MovedLanding` | src/components/NetworkMonitor.tsx:151-154 | the moved element ends at the index it was moved to: before the element that held that index when it came from later, after it when it came from earlier |
| `MetricRegistry.IdsOfMoved` | src/components/NetworkMonitor.tsx:153-154 | moving records moves their ids the same way |
| `MetricRegistry.SpliceStart` | src/components/NetworkMonitor.tsx:153-154 | splice's start index: within bounds it is used as given, a negative start counts from the end, and the result never exceeds the length |
| `MetricRegistry.SpliceStarts` | src/components/NetworkMonitor.tsx:149-154 | the two splice starts a drop computes: the dragged index, or the last index when the dragged id is missing; the target index, or the second-to-last index of the shortened list when the target is missing |
| `MetricRegistry.IndexOf` | src/components/NetworkMonitor.tsx:150-151 | `findIndex` gives -1 exactly when the id is absent, and otherwise the first index with that id |
| `MetricRegistry.Reorder` | src/components/NetworkMonitor.tsx:145-158 | with no dragged id, an empty one, or dragged equal to target, the list is unchanged; otherwise the result is a permutation with the same multiset of ids. With both ids present it is the move from the dragged index to the target's original index (where it lands is `MovedLanding`). An unknown dragged id moves the last record, and an unknown target puts the dragged record before the last one |
| `MetricRegistry.FindDisk` | src/components/NetworkMonitor.tsx:38 | `find` by id returns the first disk of the list with that id, or nothing when no disk has it |
| `MetricRegistry.SelectedDisk` | src/components/NetworkMonitor.tsx:38 | the tracked disk is the first disk with the selected id when one exists, else the first disk; there is none exactly when the list is empty |
| `MetricRegistry.InitialDiskId` | src/components/NetworkMonitor.tsx:33 | the initial selection is the first disk's id, or `ssd` when there is no disk or its id is empty |
| `MetricRegistry.ReadingFor` | src/components/NetworkMonitor.tsx:56-79 | defines the reading each known id takes from the telemetry (clock, formatted rates, percents, used of total, degrees, the tracked disk's activity and temperature), and none for any other id |
| `MetricRegistry.Refreshed` | src/components/NetworkMonitor.tsx:55-80 | defines one record's refresh: a known id gets its reading, and `disk` and `diskTemp` also get the tracked disk's name as label; the `default` case returns the record unchanged |
| `MetricRegistry.Recompute` | src/components/NetworkMonitor.tsx:54-83 | the refresh keeps length, order, ids, visibility and long labels; only `disk` and `diskTemp` take the tracked disk's name as label |
| `MetricRegistry.RecomputeAt` | src/components/NetworkMonitor.tsx:55-82 | the `map` refreshes each record on its own: record k afterwards is record k refreshed |
| `MetricRegistry.RecomputeReadings` | src/components/NetworkMonitor.tsx:54-83 | after a refresh the rates show the formatted upload and download, the disk records show the tracked disk's activity and temperature, the header shows the clock, memory shows used of total; unknown ids are left as they were |
| `MetricRegistry.RecomputeHardwareReadings` | src/components/NetworkMonitor.tsx:61-76 | after a refresh `cpu` and `gpu` show their percents, and `cpuTemp`, `mbdTemp` and `gpuTemp` their temperatures |
| `MetricRegistry.Filter` | src/components/NetworkMonitor.tsx:169-170 | `filter` keeps exactly the elements that pass the test |
| `MetricRegistry.FilterAppend` | src/components/NetworkMonitor.tsx:169-170 | filtering a concatenation filters each part, so kept elements stay in their order |
| `MetricRegistry.FilterFilter` | src/components/NetworkMonitor.tsx:169-170 | filtering by one test and then another is filtering once by both |
| `MetricRegistry.HeaderMetric` | src/components/NetworkMonitor.tsx:168 | the header record is the first registry record with id `cpuClock` (the one at `IndexOf`); it is missing exactly when no record has that id |
| `MetricRegistry.OtherMetrics` | src/components/NetworkMonitor.tsx:169 | the list records never include `cpuClock` and all come from the registry |
| `MetricRegistry.VisibleOtherMetrics` | src/components/NetworkMonitor.tsx:170 | the drawn records are exactly the registry's visible records other than `cpuClock` |
| `MetricRegistry.VisibleOthersInRegistryOrder` | src/components/NetworkMonitor.tsx:168-170 | the drawn list is the registry filtered once by "not `cpuClock` and visible", hence in registry order |
| `MetricRegistry.OtherMetricsCount` | src/components/NetworkMonitor.tsx:169 | with distinct ids, the list holds one record fewer than the registry if `cpuClock` is present, all of them otherwise |
| `MetricRegistry.ShowPlaceholder` | src/components/NetworkMonitor.tsx:255-256 | defines when the "turn a metric on" placeholder is drawn: no visible list record and no visible header record |
| `MetricRegistry.ShowFooter` | src/components/NetworkMonitor.tsx:260 | defines when the active-application footer is drawn: some record is visible |
| `MetricRegistry.NothingVisibleRendersNothing` | src/components/NetworkMonitor.tsx:238-267 | with every record hidden nothing is drawn in the list, the placeholder shows and the footer does not |
| `MetricRegistry.PlaceholderExactlyWhenNothingVisible` | src/components/NetworkMonitor.tsx:256-260 | with distinct ids, the placeholder shows exactly when the footer does not, that is when no record is visible |
| `NetworkMonitor.SettingsWidth` | src/components/NetworkMonitor.tsx:179 | defines the panel width the placement uses: 520 px horizontal, 224 px vertical |
| `NetworkMonitor.SettingsHeight` | src/components/NetworkMonitor.tsx:180 | defines the panel height the placement uses: 240 px horizontal, 330 px vertical |
| `NetworkMonitor.SettingsPlacement` | src/components/NetworkMonitor.tsx:179-201 | vertical: right of the widget exactly when the space on the right exceeds 224 + 16, else left; horizontal: below exactly when the space below exceeds 240 + 48, else above |
| `NetworkMonitor.PlacementFlipsOnce` | src/components/NetworkMonitor.tsx:182-201 | moving the widget right or down never brings the panel back to its preferred side |
| `NetworkMonitor.Widget.constructor` | src/components/NetworkMonitor.tsx:29-52 | initial position (100, window height − 550), not dragging, settings closed, horizontal layout, first disk selected, nothing dragged, the initial registry |
| `NetworkMonitor.Widget.MouseDown` | src/components/NetworkMonitor.tsx:89-103 | a press on an interactive child changes nothing; any other press starts a drag and records the pointer's offset from the widget's corner |
| `NetworkMonitor.Widget.MouseMove` | src/components/NetworkMonitor.tsx:105-111 | while dragging the position becomes pointer minus offset; otherwise it is unchanged |
| `NetworkMonitor.Widget.MouseUp` | src/components/NetworkMonitor.tsx:113-115 | a release ends the drag |
| `NetworkMonitor.Widget.ToggleMetric` | src/components/NetworkMonitor.tsx:132-134 | the registry becomes `Toggled` of itself and keeps its eleven ids |
| `NetworkMonitor.Widget.DragStart` | src/components/NetworkMonitor.tsx:136-139 | the dragged id is recorded |
| `NetworkMonitor.Widget.Drop` | src/components/NetworkMonitor.tsx:145-158 | a rejected drop changes nothing, not even the dragged id; an accepted one reorders (a permutation, the dragged record at the target's index) and clears the dragged id; the eleven ids are kept |
| `NetworkMonitor.Widget.ToggleSettings` | src/components/NetworkMonitor.tsx:218 | the settings button flips the panel open or closed |
| `NetworkMonitor.Widget.SetLayout` | src/components/NetworkMonitor.tsx:302-303 | the layout buttons set the orientation |
| `NetworkMonitor.Widget.SelectDisk` | src/components/NetworkMonitor.tsx:308-310 | the picker records the chosen disk id |
| `NetworkMonitor.Widget.PlaceSettings` | src/components/NetworkMonitor.tsx:174-205 | while the panel is open its placement is recomputed by `SettingsPlacement`; while closed the last placement is kept |
| `NetworkMonitor.Widget.Refresh` | src/components/NetworkMonitor.tsx:38-83 | the registry becomes `Recompute` of itself against the selected disk (with its fallback), keeping the eleven ids |
| `NetworkMonitor.Widget.Header` | src/components/NetworkMonitor.tsx:168 | the header record is the registry's first `cpuClock` record, and there is one exactly when the registry holds that id |
| `NetworkMonitor.DragGesture` | src/components/NetworkMonitor.tsx:89-115 | press, move and release move the widget's corner by exactly the pointer's displacement; a move after the release does not move it; only the position, drag flag and grab offset change |

## Left out

- Timers: the `setInterval` schedules, their teardown, and the immediate first call of each hook. One tick is one call of `SimulateStats` or `SimulateSpeed`. The effect's first call is the first such call.
- `Math.random()`: every draw is a parameter in [0, 1), not a source of randomness.
- The `toFixed` text: a reading is kept as the number it renders (the formatter's quotient and unit, a percent, degrees, GHz). The memory reading is kept as used and total, with no division, so a zero total needs no special case. The rounding edge case where 1023.95 KB/s shows as "1024.0 KB/s" is therefore not modelled.
- The update-check button's two-stage `setTimeout` message sequence (src/components/NetworkMonitor.tsx:160-166). It is only timed text.
- The window `mousemove`/`mouseup` listener wiring (src/components/NetworkMonitor.tsx:117-130). The model calls `MouseMove` and `MouseUp` directly; `MouseMove` keeps the handler's own `isDragging` test.
- The `closest('.settings-panel')`/`closest('button')` test is the boolean `onInteractiveChild`. The `dragRef.current` null test is dropped because the ref is always set once mounted. The bounding box, `window.innerWidth` and `window.innerHeight` are parameters.
- `NetworkMonitor.DragGesture`: assumes the widget's bounding box starts at its `position`, as the absolutely positioned widget does.
- JSX, CSS classes, icons, and the rule hiding the network records' short labels in horizontal layout (src/components/NetworkMonitor.tsx:241-242). These are presentational.
- The `label` field of a record is called `shortLabel`, because `label` is a reserved word in Dafny.
- `electron.js` and `App.tsx`: window plumbing and static markup, with no logic.
- `HardwareStats.NextStats`: the half-open upper bounds of the bands (for example clock below 5.0, CPU temperature below 95, GPU temperature below 90, motherboard temperature below 50, disk temperature below 55) hold for exact real arithmetic. In doubles, `lo + r * width` at the largest draw can round up to exactly the upper end.
- `NetworkMonitor.Widget.Refresh`: requires a non-empty disk list. The source would read a field of `undefined` on an empty one.
