/**
 * The widget's metric registry: an ordered list of eleven display records,
 * each with a stable id, two labels, a visibility flag and the reading it
 * shows. The widget toggles, reorders, refreshes and filters this list; all
 * of that is modelled here on values, with the drop handler's splice steps
 * as a method.
 */
module MetricRegistry {
  import opened Sim
  import FormatSpeed
  import HardwareStats

  /**
   * What a record's `getValue` renders; the `toFixed` text itself is kept
   * abstract. The memory reading keeps used and total, shown as their ratio
   * in percent.
   */
  datatype Reading =
    | Clock(ghz: real)
    | Rate(speed: FormatSpeed.Formatted)
    | Percent(percent: real)
    | MemoryShare(used: real, total: real)
    | Celsius(degrees: real)

  datatype Metric = Metric(id: string, shortLabel: string, fullLabel: string, visible: bool, reading: Reading)

  /** The id of the record shown in the header slot rather than in the list. */
  const HeaderId: string := "cpuClock"

  const DiskId: string := "disk"
  const DiskTempId: string := "diskTemp"

  /** The registry before any refresh. */
  const InitialMetrics: seq<Metric> := [
    Metric("cpuClock", "Clock", "Xung CPU", true, Clock(0.0)),
    Metric("upload", "Tải lên", "Tải lên", true, Rate(FormatSpeed.Formatted(0.0, FormatSpeed.KiloBytesPerSec))),
    Metric("cpu", "CPU", "%CPU", true, Percent(0.0)),
    Metric("memory", "MEM", "%RAM", true, Percent(0.0)),
    Metric("gpu", "GPU", "%GPU", true, Percent(0.0)),
    Metric("disk", "SSD", "%DISK", true, Percent(0.0)),
    Metric("download", "Tải xuống", "Tải xuống", true, Rate(FormatSpeed.Formatted(0.0, FormatSpeed.KiloBytesPerSec))),
    Metric("cpuTemp", "CPU", "CPU Temp", true, Celsius(0.0)),
    Metric("mbdTemp", "MBD", "MBD Temp", true, Celsius(0.0)),
    Metric("gpuTemp", "GPU", "GPU Temp", true, Celsius(0.0)),
    Metric("diskTemp", "SSD", "Disk Temp", true, Celsius(0.0))
  ]

  function Ids(ms: seq<Metric>): (ids: seq<string>)
    ensures |ids| == |ms|
  {
    seq(|ms|, k requires 0 <= k < |ms| => ms[k].id)
  }

  predicate HasId(ms: seq<Metric>, id: string) {
    exists k :: 0 <= k < |ms| && ms[k].id == id
  }

  predicate UniqueIds(ms: seq<Metric>) {
    forall i, j :: 0 <= i < j < |ms| ==> ms[i].id != ms[j].id
  }

  /** Eleven records with distinct ids, all visible, the clock first. */
  lemma InitialRegistry()
    ensures |InitialMetrics| == 11 && UniqueIds(InitialMetrics)
    ensures forall k :: 0 <= k < |InitialMetrics| ==> InitialMetrics[k].visible
    ensures InitialMetrics[0].id == HeaderId
  {
  }

  // ---------------------------------------------------------------------------
  // Toggling visibility

  /** handleToggleMetric: the records with the given id change visibility. */
  function Toggled(ms: seq<Metric>, id: string): (r: seq<Metric>)
    ensures |r| == |ms|
    ensures forall k :: 0 <= k < |ms| ==>
      && r[k].visible == (if ms[k].id == id then !ms[k].visible else ms[k].visible)
      && r[k].(visible := ms[k].visible) == ms[k]
  {
    if ms == [] then []
    else
      var m := ms[0];
      [if m.id == id then m.(visible := !m.visible) else m] + Toggled(ms[1..], id)
  }

  /** Toggling the same id twice gives back the original list. */
  lemma {:induction false} ToggleTwice(ms: seq<Metric>, id: string)
    ensures Toggled(Toggled(ms, id), id) == ms
  {
    var r := Toggled(Toggled(ms, id), id);
    assert |r| == |ms|;
    forall k | 0 <= k < |ms| ensures r[k] == ms[k] {
      var once := Toggled(ms, id);
      assert once[k].id == ms[k].id;
    }
  }

  /** An id that names no record leaves the list unchanged. */
  lemma {:induction false} ToggleUnknown(ms: seq<Metric>, id: string)
    requires !HasId(ms, id)
    ensures Toggled(ms, id) == ms
  {
    var r := Toggled(ms, id);
    forall k | 0 <= k < |ms| ensures r[k] == ms[k] {
      assert ms[k].id != id;
    }
  }

  // ---------------------------------------------------------------------------
  // Moving one element: the two splice calls of the drop handler

  function Remove<T>(s: seq<T>, i: nat): (r: seq<T>)
    requires i < |s|
    ensures |r| == |s| - 1
  {
    s[..i] + s[i + 1..]
  }

  function Insert<T>(s: seq<T>, i: nat, x: T): (r: seq<T>)
    requires i <= |s|
    ensures |r| == |s| + 1
  {
    s[..i] + [x] + s[i..]
  }

  /** Take the element at `from` out and put it back so that it ends at index `to`. */
  function Moved<T>(s: seq<T>, from: nat, to: nat): (r: seq<T>)
    requires from < |s| && to < |s|
    ensures |r| == |s|
  {
    Insert(Remove(s, from), to, s[from])
  }

  /** Index by index: the moved element sits at `to`, the ones in between shift by one, the rest stay. */
  lemma MovedAt<T>(s: seq<T>, from: nat, to: nat, k: nat)
    requires from < |s| && to < |s| && k < |s|
    ensures Moved(s, from, to)[k] ==
      if k == to then s[from]
      else if from <= k < to then s[k + 1]
      else if to < k <= from then s[k - 1]
      else s[k]
  {
  }

  /** A move is a permutation. */
  lemma MovedPermutation<T>(s: seq<T>, from: nat, to: nat)
    requires from < |s| && to < |s|
    ensures multiset(Moved(s, from, to)) == multiset(s)
  {
    var x, rest := s[from], Remove(s, from);
    calc {
      multiset(Moved(s, from, to));
      multiset(rest[..to] + [x] + rest[to..]);
      multiset(rest[..to]) + multiset{x} + multiset(rest[to..]);
      { assert rest == rest[..to] + rest[to..]; }
      multiset(rest) + multiset{x};
      multiset(s[..from]) + multiset(s[from + 1..]) + multiset{x};
      { assert s == s[..from] + [x] + s[from + 1..]; }
      multiset(s);
    }
  }

  /** Moving back from `to` to `from` undoes a move. */
  lemma MovedInverse<T>(s: seq<T>, from: nat, to: nat)
    requires from < |s| && to < |s|
    ensures Moved(Moved(s, from, to), to, from) == s
  {
    var once := Moved(s, from, to);
    var twice := Moved(once, to, from);
    forall k | 0 <= k < |s| ensures twice[k] == s[k] {
      MovedAt(once, to, from, k);
      if k == from {
        MovedAt(s, from, to, to);
      } else if to <= k < from {
        MovedAt(s, from, to, k + 1);
      } else if from < k <= to {
        MovedAt(s, from, to, k - 1);
      } else {
        MovedAt(s, from, to, k);
      }
    }
  }

  /** Moving records moves their ids the same way. */
  lemma IdsOfMoved(s: seq<Metric>, from: nat, to: nat)
    requires from < |s| && to < |s|
    ensures Ids(Moved(s, from, to)) == Moved(Ids(s), from, to)
  {
    var a, b := Ids(Moved(s, from, to)), Moved(Ids(s), from, to);
    forall k | 0 <= k < |s| ensures a[k] == b[k] {
      MovedAt(s, from, to, k);
      MovedAt(Ids(s), from, to, k);
    }
  }

  /**
   * The start index `Array.prototype.splice` actually uses: a negative start
   * counts from the end (and stops at 0), a start past the end is the length.
   */
  function SpliceStart(start: int, len: nat): (k: nat)
    ensures k <= len
    ensures 0 <= start <= len ==> k == start
    ensures -(len as int) <= start < 0 ==> k == len + start
  {
    if start < 0 then (if len + start < 0 then 0 else len + start)
    else if start > len then len
    else start
  }

  /** `findIndex` on the id: the first record with that id, or -1. */
  function IndexOf(ms: seq<Metric>, id: string): (i: int)
    ensures -1 <= i < |ms|
    ensures i == -1 <==> !HasId(ms, id)
    ensures 0 <= i ==> ms[i].id == id && forall k :: 0 <= k < i ==> ms[k].id != id
  {
    if ms == [] then -1
    else if ms[0].id == id then 0
    else
      var j := IndexOf(ms[1..], id);
      assert forall k :: 0 < k < |ms| ==> ms[1..][k - 1] == ms[k];
      if j == -1 then -1 else j + 1
  }

  /**
   * handleDrop on the metric list: unless the dragged id is missing, empty
   * or the target itself, remove the dragged record from a copy and insert
   * it back at the index the target held before the removal. Both indices
   * are looked up with findIndex, and splice reads -1 as "the last one", so
   * an unknown dragged id moves the last record and an unknown target id
   * puts the dragged record before the last one.
   */
  method Reorder(metrics: seq<Metric>, draggedId: Option<string>, targetId: string)
    returns (newMetrics: seq<Metric>, dropped: bool)
    requires draggedId.Some? && draggedId.value != "" && draggedId.value != targetId ==> 0 < |metrics|
    ensures dropped == (draggedId.Some? && draggedId.value != "" && draggedId.value != targetId)
    ensures !dropped ==> newMetrics == metrics
    ensures |newMetrics| == |metrics| && multiset(newMetrics) == multiset(metrics)
    ensures multiset(Ids(newMetrics)) == multiset(Ids(metrics))
    ensures dropped && HasId(metrics, draggedId.value) && HasId(metrics, targetId) ==>
      newMetrics == Moved(metrics, IndexOf(metrics, draggedId.value), IndexOf(metrics, targetId))
    ensures dropped && !HasId(metrics, draggedId.value) && HasId(metrics, targetId) ==>
      newMetrics == Moved(metrics, |metrics| - 1, IndexOf(metrics, targetId))
    ensures dropped && HasId(metrics, draggedId.value) && !HasId(metrics, targetId) ==>
      newMetrics == Moved(metrics, IndexOf(metrics, draggedId.value), if |metrics| < 2 then 0 else |metrics| - 2)
    ensures dropped && !HasId(metrics, draggedId.value) && !HasId(metrics, targetId) ==>
      newMetrics == Moved(metrics, |metrics| - 1, if |metrics| < 2 then 0 else |metrics| - 2)
  {
    dropped := draggedId.Some? && draggedId.value != "" && draggedId.value != targetId;
    if !dropped {
      return metrics, dropped;
    }
    newMetrics := metrics;
    var draggedIndex := IndexOf(newMetrics, draggedId.value);
    var targetIndex := IndexOf(newMetrics, targetId);
    // newMetrics.splice(draggedIndex, 1)
    var from := SpliceStart(draggedIndex, |newMetrics|);
    var draggedItem := newMetrics[from];
    newMetrics := Remove(newMetrics, from);
    // newMetrics.splice(targetIndex, 0, draggedItem)
    var to := SpliceStart(targetIndex, |newMetrics|);
    newMetrics := Insert(newMetrics, to, draggedItem);

    assert newMetrics == Moved(metrics, from, to);
    SpliceStarts(metrics, draggedId.value, targetId, from, to);
    MovedPermutation(metrics, from, to);
    IdsOfMoved(metrics, from, to);
    MovedPermutation(Ids(metrics), from, to);
  }

  /** The two splice starts of an accepted drop, by whether each id is present. */
  lemma SpliceStarts(metrics: seq<Metric>, draggedId: string, targetId: string, from: nat, to: nat)
    requires 0 < |metrics|
    requires from == SpliceStart(IndexOf(metrics, draggedId), |metrics|)
    requires to == SpliceStart(IndexOf(metrics, targetId), |metrics| - 1)
    ensures from < |metrics| && to < |metrics|
    ensures HasId(metrics, draggedId) && HasId(metrics, targetId) ==>
      from == IndexOf(metrics, draggedId) && to == IndexOf(metrics, targetId)
    ensures !HasId(metrics, draggedId) && HasId(metrics, targetId) ==>
      from == |metrics| - 1 && to == IndexOf(metrics, targetId)
    ensures HasId(metrics, draggedId) && !HasId(metrics, targetId) ==>
      from == IndexOf(metrics, draggedId) && to == if |metrics| < 2 then 0 else |metrics| - 2
    ensures !HasId(metrics, draggedId) && !HasId(metrics, targetId) ==>
      from == |metrics| - 1 && to == if |metrics| < 2 then 0 else |metrics| - 2
  {
  }

  /** Where a move puts the moved element relative to the element that held index `to`. */
  lemma MovedLanding<T>(s: seq<T>, from: nat, to: nat)
    requires from < |s| && to < |s|
    ensures Moved(s, from, to)[to] == s[from]
    ensures to < from ==> Moved(s, from, to)[to + 1] == s[to]
    ensures from < to ==> Moved(s, from, to)[to - 1] == s[to]
  {
    MovedAt(s, from, to, to);
    if to < from {
      MovedAt(s, from, to, to + 1);
    } else if from < to {
      MovedAt(s, from, to, to - 1);
    }
  }

  // ---------------------------------------------------------------------------
  // Disk selection

  /** `disks.find(d => d.id === id)`. */
  function FindDisk(disks: seq<HardwareStats.Disk>, id: string): (r: Option<HardwareStats.Disk>)
    ensures r.Some? ==> r.value in disks && r.value.id == id
    ensures r.Some? ==> exists k :: 0 <= k < |disks| && disks[k] == r.value && forall j :: 0 <= j < k ==> disks[j].id != id
    ensures r.None? ==> forall k :: 0 <= k < |disks| ==> disks[k].id != id
  {
    if disks == [] then None
    else if disks[0].id == id then Some(disks[0])
    else
      var r := FindDisk(disks[1..], id);
      assert forall k :: 0 < k < |disks| ==> disks[1..][k - 1] == disks[k];
      r
  }

  /** The tracked disk: the one with the selected id, else the first disk (none when the list is empty). */
  function SelectedDisk(disks: seq<HardwareStats.Disk>, id: string): (r: Option<HardwareStats.Disk>)
    ensures (exists k :: 0 <= k < |disks| && disks[k].id == id) ==>
      r.Some? && r.value in disks && r.value.id == id
    ensures (exists k :: 0 <= k < |disks| && disks[k].id == id) ==>
      exists k :: 0 <= k < |disks| && disks[k] == r.value && forall j :: 0 <= j < k ==> disks[j].id != id
    ensures (forall k :: 0 <= k < |disks| ==> disks[k].id != id) && disks != [] ==> r == Some(disks[0])
    ensures disks == [] <==> r.None?
  {
    match FindDisk(disks, id)
    case Some(d) => Some(d)
    case None => if disks == [] then None else Some(disks[0])
  }

  /** `disks[0]?.id || 'ssd'`: the first disk's id, unless there is none or it is empty. */
  function InitialDiskId(disks: seq<HardwareStats.Disk>): (id: string)
    ensures disks != [] && disks[0].id != "" ==> id == disks[0].id
    ensures disks == [] || disks[0].id == "" ==> id == "ssd"
  {
    if disks != [] && disks[0].id != "" then disks[0].id else "ssd"
  }

  // ---------------------------------------------------------------------------
  // Refreshing the readings

  /** The fresh reading for a record id, if the id is one the refresh knows. */
  function ReadingFor(id: string, hw: HardwareStats.Snapshot, download: real, upload: real,
                      disk: HardwareStats.Disk): Option<Reading>
  {
    match id
    case "cpuClock" => Some(Clock(hw.cpuClock))
    case "upload" => Some(Rate(FormatSpeed.FormatSpeed(upload)))
    case "cpu" => Some(Percent(hw.cpu))
    case "memory" => Some(MemoryShare(hw.memory.used, hw.memory.total))
    case "gpu" => Some(Percent(hw.gpu))
    case "disk" => Some(Percent(disk.activity))
    case "download" => Some(Rate(FormatSpeed.FormatSpeed(download)))
    case "cpuTemp" => Some(Celsius(hw.cpuTemp))
    case "mbdTemp" => Some(Celsius(hw.mbdTemp))
    case "gpuTemp" => Some(Celsius(hw.gpuTemp))
    case "diskTemp" => Some(Celsius(disk.temp))
    case _ => None
  }

  function Refreshed(m: Metric, hw: HardwareStats.Snapshot, download: real, upload: real,
                     disk: HardwareStats.Disk): Metric
  {
    match ReadingFor(m.id, hw, download, upload, disk)
    case None => m
    case Some(reading) =>
      var shortLabel := if m.id == DiskId || m.id == DiskTempId then disk.name else m.shortLabel;
      m.(shortLabel := shortLabel, reading := reading)
  }

  /**
   * The refresh effect: every record keeps its id, position, visibility and
   * long label; only the two disk records take the tracked disk's name as
   * their label. The readings each record gets are stated by
   * RecomputeReadings and RecomputeHardwareReadings.
   */
  function Recompute(ms: seq<Metric>, hw: HardwareStats.Snapshot, download: real, upload: real,
                     disk: HardwareStats.Disk): (r: seq<Metric>)
    ensures |r| == |ms|
    ensures forall k :: 0 <= k < |ms| ==>
      && r[k].id == ms[k].id
      && r[k].visible == ms[k].visible
      && r[k].fullLabel == ms[k].fullLabel
      && r[k].shortLabel == (if ms[k].id == DiskId || ms[k].id == DiskTempId then disk.name else ms[k].shortLabel)
  {
    if ms == [] then []
    else [Refreshed(ms[0], hw, download, upload, disk)] + Recompute(ms[1..], hw, download, upload, disk)
  }

  /** Record k after a refresh is record k refreshed on its own. */
  lemma {:induction false} RecomputeAt(ms: seq<Metric>, hw: HardwareStats.Snapshot,
                                       download: real, upload: real, disk: HardwareStats.Disk, k: nat)
    requires k < |ms|
    ensures Recompute(ms, hw, download, upload, disk)[k] == Refreshed(ms[k], hw, download, upload, disk)
    decreases k
  {
    if k > 0 {
      RecomputeAt(ms[1..], hw, download, upload, disk, k - 1);
    }
  }

  /** What the network, disk, clock and memory records show after a refresh; an unknown id keeps its record. */
  lemma RecomputeReadings(ms: seq<Metric>, hw: HardwareStats.Snapshot,
                          download: real, upload: real, disk: HardwareStats.Disk, k: nat)
    requires k < |ms|
    ensures var m := Recompute(ms, hw, download, upload, disk)[k];
      && (ms[k].id == "upload" ==> m.reading == Rate(FormatSpeed.FormatSpeed(upload)))
      && (ms[k].id == "download" ==> m.reading == Rate(FormatSpeed.FormatSpeed(download)))
      && (ms[k].id == DiskId ==> m.reading == Percent(disk.activity))
      && (ms[k].id == DiskTempId ==> m.reading == Celsius(disk.temp))
      && (ms[k].id == HeaderId ==> m.reading == Clock(hw.cpuClock))
      && (ms[k].id == "memory" ==> m.reading == MemoryShare(hw.memory.used, hw.memory.total))
      && (ReadingFor(ms[k].id, hw, download, upload, disk).None? ==> m == ms[k])
  {
    RecomputeAt(ms, hw, download, upload, disk, k);
    var id := ms[k].id;
    if id == "upload" {
      assert ReadingFor(id, hw, download, upload, disk) == Some(Rate(FormatSpeed.FormatSpeed(upload)));
    } else if id == "download" {
      assert ReadingFor(id, hw, download, upload, disk) == Some(Rate(FormatSpeed.FormatSpeed(download)));
    } else if id == DiskId {
      assert ReadingFor(id, hw, download, upload, disk) == Some(Percent(disk.activity));
    } else if id == DiskTempId {
      assert ReadingFor(id, hw, download, upload, disk) == Some(Celsius(disk.temp));
    } else if id == HeaderId {
      assert ReadingFor(id, hw, download, upload, disk) == Some(Clock(hw.cpuClock));
    } else if id == "memory" {
      assert ReadingFor(id, hw, download, upload, disk) == Some(MemoryShare(hw.memory.used, hw.memory.total));
    }
  }

  /** What the CPU, GPU and temperature records show after a refresh. */
  lemma RecomputeHardwareReadings(ms: seq<Metric>, hw: HardwareStats.Snapshot,
                                  download: real, upload: real, disk: HardwareStats.Disk, k: nat)
    requires k < |ms|
    ensures var m := Recompute(ms, hw, download, upload, disk)[k];
      && (ms[k].id == "cpu" ==> m.reading == Percent(hw.cpu))
      && (ms[k].id == "gpu" ==> m.reading == Percent(hw.gpu))
      && (ms[k].id == "cpuTemp" ==> m.reading == Celsius(hw.cpuTemp))
      && (ms[k].id == "mbdTemp" ==> m.reading == Celsius(hw.mbdTemp))
      && (ms[k].id == "gpuTemp" ==> m.reading == Celsius(hw.gpuTemp))
  {
    RecomputeAt(ms, hw, download, upload, disk, k);
    var id := ms[k].id;
    if id == "cpu" {
      assert ReadingFor(id, hw, download, upload, disk) == Some(Percent(hw.cpu));
    } else if id == "gpu" {
      assert ReadingFor(id, hw, download, upload, disk) == Some(Percent(hw.gpu));
    } else if id == "cpuTemp" {
      assert ReadingFor(id, hw, download, upload, disk) == Some(Celsius(hw.cpuTemp));
    } else if id == "mbdTemp" {
      assert ReadingFor(id, hw, download, upload, disk) == Some(Celsius(hw.mbdTemp));
    } else if id == "gpuTemp" {
      assert ReadingFor(id, hw, download, upload, disk) == Some(Celsius(hw.gpuTemp));
    }
  }

  // ---------------------------------------------------------------------------
  // What is rendered

  /** `Array.prototype.filter`. */
  function Filter<T(!new)>(s: seq<T>, p: T -> bool): (r: seq<T>)
    ensures forall x :: x in r <==> x in s && p(x)
    ensures |r| <= |s|
  {
    if s == [] then []
    else (if p(s[0]) then [s[0]] else []) + Filter(s[1..], p)
  }

  /** Filtering a concatenation filters each part: the kept elements stay in their order. */
  lemma {:induction false} FilterAppend<T(!new)>(a: seq<T>, b: seq<T>, p: T -> bool)
    ensures Filter(a + b, p) == Filter(a, p) + Filter(b, p)
  {
    if a == [] {
      assert a + b == b;
    } else {
      var head := if p(a[0]) then [a[0]] else [];
      calc {
        Filter(a + b, p);
        { assert (a + b)[0] == a[0]; }
        head + Filter((a + b)[1..], p);
        { assert (a + b)[1..] == a[1..] + b; }
        head + Filter(a[1..] + b, p);
        { FilterAppend(a[1..], b, p); }
        head + (Filter(a[1..], p) + Filter(b, p));
        Filter(a, p) + Filter(b, p);
      }
    }
  }

  /** Nothing passes the test, so nothing is kept. */
  lemma {:induction false} FilterNone<T(!new)>(s: seq<T>, p: T -> bool)
    requires forall k :: 0 <= k < |s| ==> !p(s[k])
    ensures Filter(s, p) == []
  {
    if s != [] {
      FilterNone(s[1..], p);
    }
  }

  /** One step of the filter on a list given as head and tail. */
  lemma FilterCons<T(!new)>(x: T, t: seq<T>, p: T -> bool)
    ensures Filter([x] + t, p) == (if p(x) then [x] else []) + Filter(t, p)
  {
    assert ([x] + t)[0] == x && ([x] + t)[1..] == t;
  }

  /** Filtering by `p` and then by `q` keeps exactly what passes both tests, in the same order. */
  lemma {:induction false} FilterFilter<T(!new)>(s: seq<T>, p: T -> bool, q: T -> bool, both: T -> bool)
    requires forall x :: both(x) == (p(x) && q(x))
    ensures Filter(Filter(s, p), q) == Filter(s, both)
  {
    if s != [] {
      var x, t := s[0], s[1..];
      assert s == [x] + t;
      FilterFilter(t, p, q, both);
      FilterCons(x, t, p);
      FilterCons(x, t, both);
      assert both(x) == (p(x) && q(x));
      if p(x) {
        FilterCons(x, Filter(t, p), q);
      } else {
        assert Filter(s, p) == Filter(t, p);
        assert Filter(s, both) == Filter(t, both);
      }
    }
  }

  /** `metrics.find(m => m.id === 'cpuClock')`: the record for the header slot. */
  function HeaderMetric(ms: seq<Metric>): (r: Option<Metric>)
    ensures r.Some? ==> r.value in ms && r.value.id == HeaderId
    ensures r.Some? ==> r.value == ms[IndexOf(ms, HeaderId)]
    ensures r.None? <==> !HasId(ms, HeaderId)
  {
    if ms == [] then None
    else if ms[0].id == HeaderId then Some(ms[0])
    else
      var r := HeaderMetric(ms[1..]);
      assert forall k :: 0 < k < |ms| ==> ms[1..][k - 1] == ms[k];
      r
  }

  predicate NotHeader(m: Metric) {
    m.id != HeaderId
  }

  predicate IsVisible(m: Metric) {
    m.visible
  }

  /** The ten records of the list or grid, in registry order. */
  function OtherMetrics(ms: seq<Metric>): (r: seq<Metric>)
    ensures forall m :: m in r ==> m.id != HeaderId && m in ms
  {
    Filter(ms, NotHeader)
  }

  /** The records actually drawn in the list or grid. */
  function VisibleOtherMetrics(ms: seq<Metric>): (r: seq<Metric>)
    ensures forall m :: m in r <==> m in ms && m.id != HeaderId && m.visible
  {
    Filter(OtherMetrics(ms), IsVisible)
  }

  predicate ListedAndVisible(m: Metric) {
    m.id != HeaderId && m.visible
  }

  /** The drawn list is the registry filtered once by "not the header and visible". */
  lemma VisibleOthersInRegistryOrder(ms: seq<Metric>)
    ensures VisibleOtherMetrics(ms) == Filter(ms, ListedAndVisible)
  {
    FilterFilter(ms, NotHeader, IsVisible, ListedAndVisible);
  }

  /** The header record is in the list when and only when it is in the registry, once. */
  lemma {:induction false} OtherMetricsCount(ms: seq<Metric>)
    requires UniqueIds(ms)
    ensures |OtherMetrics(ms)| == if HasId(ms, HeaderId) then |ms| - 1 else |ms|
  {
    if ms != [] {
      assert UniqueIds(ms[1..]);
      OtherMetricsCount(ms[1..]);
      assert HasId(ms, HeaderId) <==> ms[0].id == HeaderId || HasId(ms[1..], HeaderId) by {
        assert forall k :: 0 < k < |ms| ==> ms[1..][k - 1] == ms[k];
      }
      if ms[0].id == HeaderId {
        assert !HasId(ms[1..], HeaderId);
      }
    }
  }

  /** The "no visible metrics" placeholder: nothing in the list and no visible header record. */
  predicate ShowPlaceholder(ms: seq<Metric>) {
    |VisibleOtherMetrics(ms)| == 0 && !(HeaderMetric(ms).Some? && HeaderMetric(ms).value.visible)
  }

  /** `metrics.some(m => m.visible)`: the active-application footer is drawn. */
  predicate ShowFooter(ms: seq<Metric>) {
    exists k :: 0 <= k < |ms| && ms[k].visible
  }

  /** With every record hidden nothing is drawn in the list, the placeholder shows and the footer does not. */
  lemma NothingVisibleRendersNothing(ms: seq<Metric>)
    requires forall k :: 0 <= k < |ms| ==> !ms[k].visible
    ensures VisibleOtherMetrics(ms) == [] && ShowPlaceholder(ms) && !ShowFooter(ms)
  {
    var others := OtherMetrics(ms);
    forall k | 0 <= k < |others| ensures !IsVisible(others[k]) {
      assert others[k] in ms;
    }
    FilterNone(others, IsVisible);
  }

  /** With distinct ids, the placeholder is shown exactly when the footer is not: when nothing is visible. */
  lemma PlaceholderExactlyWhenNothingVisible(ms: seq<Metric>)
    requires UniqueIds(ms)
    ensures ShowPlaceholder(ms) <==> !ShowFooter(ms)
  {
    if ShowPlaceholder(ms) {
      forall k | 0 <= k < |ms| ensures !ms[k].visible {
        if ms[k].id == HeaderId {
          assert HasId(ms, HeaderId);
          var h := HeaderMetric(ms).value;
          var j :| 0 <= j < |ms| && ms[j] == h;
          assert j == k;
        }
      }
    } else if !ShowFooter(ms) {
      NothingVisibleRendersNothing(ms);
    }
  }
}
