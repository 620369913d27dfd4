/**
 * The simulated network hook. Each tick draws a download and an upload rate;
 * a counter private to the hook makes the "active application" label change
 * only on every third tick, to the idle system process under light traffic
 * and to a random user application under heavy traffic.
 */
module NetworkSpeed {
  import opened Sim

  /** The application catalogue the label is drawn from. */
  const MockApps: seq<string> := [
    "chrome.exe", "steam.exe", "Spotify.exe", "svchost.exe",
    "Discord.exe", "msedge.exe", "CreativeCloud.exe"
  ]

  /** The label shown while traffic is light. */
  const IdleApp: string := "svchost.exe"

  const MiB: real := 1024.0 * 1024.0

  /** `apps.filter(app => app !== x)`. */
  function Without(apps: seq<string>, x: string): (r: seq<string>)
    ensures forall a :: a in r <==> a in apps && a != x
    ensures |r| <= |apps|
  {
    if apps == [] then []
    else if apps[0] == x then Without(apps[1..], x)
    else [apps[0]] + Without(apps[1..], x)
  }

  /** The applications a heavy-traffic tick chooses from. */
  function UserApps(): (r: seq<string>)
    ensures forall a :: a in r <==> a in MockApps && a != IdleApp
    ensures |r| == 6
  {
    Without(MockApps, IdleApp)
  }

  /** Heavy traffic: more than 40 MiB/s down or more than 5 MiB/s up. */
  predicate HighUsage(download: real, upload: real) {
    download > 40.0 * MiB || upload > 5.0 * MiB
  }

  /** The three draws one tick consumes. `app` is only used on a label tick with heavy traffic. */
  datatype Draws = Draws(download: real, upload: real, app: real)

  predicate ValidDraws(d: Draws) {
    IsDraw(d.download) && IsDraw(d.upload) && IsDraw(d.app)
  }

  /** The hook's state: the two rates, the label, and the tick counter of the effect's closure. */
  datatype State = State(downloadSpeed: real, uploadSpeed: real, activeApp: string, counter: int)

  /** Before the effect runs: both rates zero, the first catalogue entry, the counter at 0. */
  const Initial: State := State(0.0, 0.0, MockApps[0], 0)

  /** The label a tick that reaches the counter's limit sets. */
  function ChooseApp(download: real, upload: real, r: real): (app: string)
    requires IsDraw(r)
    ensures HighUsage(download, upload) ==> app in MockApps && app != IdleApp
    ensures !HighUsage(download, upload) ==> app == IdleApp
  {
    if HighUsage(download, upload) then
      var userApps := UserApps();
      userApps[DrawIndex(r, |userApps|)]
    else
      IdleApp
  }

  /** simulateSpeed: one tick of the hook. */
  function Tick(s: State, d: Draws): (t: State)
    requires ValidDraws(d)
    ensures 0.0 <= t.downloadSpeed < 100.0 * MiB
    ensures 0.0 <= t.uploadSpeed < 20.0 * MiB
    ensures s.counter + 1 > 2 ==> t.counter == 0
    ensures s.counter + 1 <= 2 ==> t.counter == s.counter + 1 && t.activeApp == s.activeApp
  {
    var download := Scaled(0.0, 100.0 * MiB, d.download);
    var upload := Scaled(0.0, 20.0 * MiB, d.upload);
    var counter := s.counter + 1;
    if counter > 2 then
      State(download, upload, ChooseApp(download, upload, d.app), 0)
    else
      State(download, upload, s.activeApp, counter)
  }

  /** The label is set on a tick exactly when the counter was at 2 before it. */
  lemma LabelTick(s: State, d: Draws)
    requires ValidDraws(d) && 0 <= s.counter <= 2
    ensures var t := Tick(s, d);
      && 0 <= t.counter <= 2
      && (s.counter == 2 ==> t.activeApp == ChooseApp(t.downloadSpeed, t.uploadSpeed, d.app))
      && (s.counter != 2 ==> t.activeApp == s.activeApp)
  {
  }

  predicate AllValid(ds: seq<Draws>) {
    forall k :: 0 <= k < |ds| ==> ValidDraws(ds[k])
  }

  /** The state after the given ticks, the first of them being the effect's initial call. */
  function Run(s: State, ds: seq<Draws>): State
    requires AllValid(ds)
    decreases |ds|
  {
    if ds == [] then s else Tick(Run(s, ds[..|ds| - 1]), ds[|ds| - 1])
  }

  /**
   * Counting from the initial state, after n ticks the counter is n mod 3,
   * and the label was last set on tick 3 * (n / 3); before the third tick it
   * is still "chrome.exe".
   */
  lemma {:induction false} CounterCycles(ds: seq<Draws>)
    requires AllValid(ds)
    ensures Run(Initial, ds).counter == |ds| % 3
    ensures |ds| < 3 ==> Run(Initial, ds).activeApp == "chrome.exe"
    decreases |ds|
  {
    if ds != [] {
      var prefix := ds[..|ds| - 1];
      assert AllValid(prefix) by {
        forall k | 0 <= k < |prefix| ensures ValidDraws(prefix[k]) { assert prefix[k] == ds[k]; }
      }
      CounterCycles(prefix);
    }
  }

  /** Tick n (counting the initial call as 1) changes the label only when n is a multiple of 3. */
  lemma {:induction false} LabelOnlyEveryThirdTick(ds: seq<Draws>)
    requires AllValid(ds) && |ds| > 0
    ensures |ds| % 3 != 0 ==> Run(Initial, ds).activeApp == Run(Initial, ds[..|ds| - 1]).activeApp
    ensures |ds| % 3 == 0 ==>
      var t := Run(Initial, ds);
      t.activeApp == ChooseApp(t.downloadSpeed, t.uploadSpeed, ds[|ds| - 1].app)
  {
    var prefix := ds[..|ds| - 1];
    assert AllValid(prefix) by {
      forall k | 0 <= k < |prefix| ensures ValidDraws(prefix[k]) { assert prefix[k] == ds[k]; }
    }
    CounterCycles(prefix);
    assert (|prefix| % 3 == 2) == (|ds| % 3 == 0);
    assert Run(Initial, ds) == Tick(Run(Initial, prefix), ds[|ds| - 1]);
    LabelTick(Run(Initial, prefix), ds[|ds| - 1]);
  }

  /** The hook's state as mutable fields: the React state plus the closure's counter. */
  class SpeedHook {
    var downloadSpeed: real
    var uploadSpeed: real
    var activeApp: string
    var appUpdateCounter: int
    /** Ticks run so far. */
    ghost var ticks: nat

    function Current(): State
      reads this
    {
      State(downloadSpeed, uploadSpeed, activeApp, appUpdateCounter)
    }

    /** Between ticks the counter is the number of ticks mod 3, and the label is from the catalogue. */
    ghost predicate Valid()
      reads this
    {
      appUpdateCounter == ticks % 3 && activeApp in MockApps
    }

    constructor ()
      ensures Valid() && Current() == Initial && ticks == 0
    {
      downloadSpeed, uploadSpeed := 0.0, 0.0;
      activeApp := MockApps[0];
      appUpdateCounter := 0;
      ticks := 0;
    }

    /** simulateSpeed: sets the two rates, steps the counter and, on every third tick, the label. */
    method SimulateSpeed(d: Draws)
      requires Valid() && ValidDraws(d)
      modifies this
      ensures Valid() && ticks == old(ticks) + 1
      ensures Current() == Tick(old(Current()), d)
      ensures 0 <= appUpdateCounter <= 2
    {
      var newDownloadSpeed := Scaled(0.0, 100.0 * MiB, d.download);
      var newUploadSpeed := Scaled(0.0, 20.0 * MiB, d.upload);
      downloadSpeed := newDownloadSpeed;
      uploadSpeed := newUploadSpeed;
      appUpdateCounter := appUpdateCounter + 1;
      if appUpdateCounter > 2 {
        appUpdateCounter := 0;
        activeApp := ChooseApp(newDownloadSpeed, newUploadSpeed, d.app);
      }
      ticks := ticks + 1;
    }
  }
}
