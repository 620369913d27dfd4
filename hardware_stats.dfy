/**
 * The simulated hardware hook. Its state is eight fields that every tick
 * overwrites from fresh uniform draws; the tick is a method on a class
 * holding those fields, specified by the pure function NextStats.
 */
module HardwareStats {
  import opened Sim

  datatype Disk = Disk(id: string, name: string, activity: real, temp: real)

  datatype Memory = Memory(used: real, total: real)

  /** The values the hook returns to the widget at one moment. */
  datatype Snapshot = Snapshot(
    cpu: real, memory: Memory, gpu: real, disks: seq<Disk>,
    cpuClock: real, cpuTemp: real, gpuTemp: real, mbdTemp: real)

  /** The two draws one disk consumes per tick. */
  datatype DiskDraw = DiskDraw(activity: real, temp: real)

  /** Every `Math.random()` one tick consumes, in the order the tick uses them. */
  datatype Draws = Draws(
    cpu: real, clock: real, memory: real, gpu: real, disks: seq<DiskDraw>,
    cpuTemp: real, gpuTemp: real, mbdTemp: real)

  predicate ValidDraws(d: Draws, diskCount: nat) {
    && IsDraw(d.cpu) && IsDraw(d.clock) && IsDraw(d.memory) && IsDraw(d.gpu)
    && IsDraw(d.cpuTemp) && IsDraw(d.gpuTemp) && IsDraw(d.mbdTemp)
    && |d.disks| == diskCount
    && forall k :: 0 <= k < |d.disks| ==> IsDraw(d.disks[k].activity) && IsDraw(d.disks[k].temp)
  }

  const MemoryTotal: real := 16.0

  const InitialDisks: seq<Disk> := [
    Disk("ssd", "SSD", 0.0, 0.0),
    Disk("hdd", "HDD", 0.0, 0.0),
    Disk("nvme", "NVME", 0.0, 0.0)
  ]

  /** The state before the first tick: every reading zero, 16 GB of memory. */
  const Initial: Snapshot :=
    Snapshot(0.0, Memory(0.0, MemoryTotal), 0.0, InitialDisks, 0.0, 0.0, 0.0, 0.0)

  /** Two disk lists name the same disks in the same order. */
  predicate SameDisks(a: seq<Disk>, b: seq<Disk>) {
    |a| == |b| && forall k :: 0 <= k < |a| ==> a[k].id == b[k].id && a[k].name == b[k].name
  }

  /** A disk's readings lie in their bands: activity in [0, 100), temperature in [30, 55). */
  predicate DiskInBands(d: Disk) {
    0.0 <= d.activity < 100.0 && 30.0 <= d.temp < 55.0
  }

  /** The per-disk update: a `map` over the previous list that redraws activity and temperature. */
  function NextDisks(prev: seq<Disk>, draws: seq<DiskDraw>): (r: seq<Disk>)
    requires |draws| == |prev|
    requires forall k :: 0 <= k < |draws| ==> IsDraw(draws[k].activity) && IsDraw(draws[k].temp)
    ensures SameDisks(r, prev)
    ensures forall k :: 0 <= k < |r| ==> DiskInBands(r[k])
    decreases |prev|
  {
    if prev == [] then []
    else
      [prev[0].(activity := Scaled(0.0, 100.0, draws[0].activity),
                temp := Scaled(30.0, 25.0, draws[0].temp))]
      + NextDisks(prev[1..], draws[1..])
  }

  /** Every band a tick promises (memory only when the total is positive, as it always is). */
  predicate InBands(s: Snapshot) {
    && 0.0 <= s.cpu < 100.0
    && 0.0 <= s.gpu < 100.0
    && 3.5 <= s.cpuClock < 5.0
    && (0.0 < s.memory.total ==> 0.0 <= s.memory.used < s.memory.total)
    && 45.0 <= s.cpuTemp < 95.0
    && 40.0 <= s.gpuTemp < 90.0
    && 30.0 <= s.mbdTemp < 50.0
    && forall k :: 0 <= k < |s.disks| ==> DiskInBands(s.disks[k])
  }

  /** `Math.random() * prev.total`: the used amount is a draw scaled by the current total. */
  function UsedMemory(r: real, total: real): (used: real)
    requires IsDraw(r)
    ensures 0.0 < total ==> 0.0 <= used < total
  {
    assert 0.0 < total ==> r * total < 1.0 * total;
    r * total
  }

  /** simulateStats: the new state one tick produces from the previous one and the draws. */
  function NextStats(prev: Snapshot, d: Draws): (s: Snapshot)
    requires ValidDraws(d, |prev.disks|)
    ensures InBands(s)
    ensures s.memory.total == prev.memory.total
    ensures SameDisks(s.disks, prev.disks)
  {
    Snapshot(
      cpu := Scaled(0.0, 100.0, d.cpu),
      memory := prev.memory.(used := UsedMemory(d.memory, prev.memory.total)),
      gpu := Scaled(0.0, 100.0, d.gpu),
      disks := NextDisks(prev.disks, d.disks),
      cpuClock := Scaled(3.5, 1.5, d.clock),
      cpuTemp := Scaled(45.0, 50.0, d.cpuTemp),
      gpuTemp := Scaled(40.0, 50.0, d.gpuTemp),
      mbdTemp := Scaled(30.0, 20.0, d.mbdTemp))
  }

  /** The initial disk list: SSD, HDD and NVME, all readings zero. */
  lemma InitialState()
    ensures |Initial.disks| == 3
    ensures Initial.disks[0] == Disk("ssd", "SSD", 0.0, 0.0)
    ensures Initial.disks[1] == Disk("hdd", "HDD", 0.0, 0.0)
    ensures Initial.disks[2] == Disk("nvme", "NVME", 0.0, 0.0)
    ensures Initial.memory == Memory(0.0, 16.0)
  {
  }

  /** The memory total never changes, and the used amount stays at most the total, over any run of ticks. */
  lemma {:induction false} MemoryStaysBounded(s: Snapshot, ds: seq<Draws>)
    requires s.memory.total == MemoryTotal && 0.0 <= s.memory.used <= s.memory.total
    requires forall k :: 0 <= k < |ds| ==> ValidDraws(ds[k], |s.disks|)
    ensures Run(s, ds).memory.total == MemoryTotal
    ensures 0.0 <= Run(s, ds).memory.used <= MemoryTotal
    ensures SameDisks(Run(s, ds).disks, s.disks)
    decreases |ds|
  {
    if ds != [] {
      var next := NextStats(s, ds[0]);
      forall k | 0 <= k < |ds[1..]| ensures ValidDraws(ds[1..][k], |next.disks|) {
        assert ds[1..][k] == ds[k + 1];
      }
      MemoryStaysBounded(next, ds[1..]);
      SameDisksTransitive(Run(next, ds[1..]).disks, next.disks, s.disks);
    }
  }

  lemma SameDisksTransitive(a: seq<Disk>, b: seq<Disk>, c: seq<Disk>)
    requires SameDisks(a, b) && SameDisks(b, c)
    ensures SameDisks(a, c)
  {
  }

  /** The state after a sequence of ticks. */
  function Run(s: Snapshot, ds: seq<Draws>): Snapshot
    requires forall k :: 0 <= k < |ds| ==> ValidDraws(ds[k], |s.disks|)
    decreases |ds|
  {
    if ds == [] then s
    else
      var next := NextStats(s, ds[0]);
      assert forall k :: 0 <= k < |ds[1..]| ==> ds[1..][k] == ds[k + 1];
      Run(next, ds[1..])
  }

  /** The hook's state, updated in place by each tick. */
  class StatsHook {
    var cpu: real
    var memory: Memory
    var gpu: real
    var disks: seq<Disk>
    var cpuClock: real
    var cpuTemp: real
    var gpuTemp: real
    var mbdTemp: real

    function State(): Snapshot
      reads this
    {
      Snapshot(cpu, memory, gpu, disks, cpuClock, cpuTemp, gpuTemp, mbdTemp)
    }

    /** The total is the fixed 16 GB, the used amount within it, and the disks are the initial three. */
    predicate Valid()
      reads this
    {
      memory.total == MemoryTotal && 0.0 <= memory.used <= memory.total
      && SameDisks(disks, InitialDisks)
    }

    constructor ()
      ensures Valid() && State() == Initial
    {
      cpu, memory, gpu, disks := 0.0, Memory(0.0, MemoryTotal), 0.0, InitialDisks;
      cpuClock, cpuTemp, gpuTemp, mbdTemp := 0.0, 0.0, 0.0, 0.0;
    }

    /** One tick: overwrites the eight fields, one setter at a time. */
    method SimulateStats(d: Draws)
      requires Valid() && ValidDraws(d, |disks|)
      modifies this
      ensures Valid() && InBands(State())
      ensures State() == NextStats(old(State()), d)
    {
      cpu := Scaled(0.0, 100.0, d.cpu);
      cpuClock := Scaled(3.5, 1.5, d.clock);
      memory := memory.(used := UsedMemory(d.memory, memory.total));
      gpu := Scaled(0.0, 100.0, d.gpu);
      disks := NextDisks(disks, d.disks);
      cpuTemp := Scaled(45.0, 50.0, d.cpuTemp);
      gpuTemp := Scaled(40.0, 50.0, d.gpuTemp);
      mbdTemp := Scaled(30.0, 20.0, d.mbdTemp);
    }
  }
}
