/**
 * The widget component: its React state as the fields of a class, each
 * event handler as a method on it, and the settings-panel placement rule as
 * a function of the window and widget geometry it reads.
 */
module NetworkMonitor {
  import opened Sim
  import opened MetricRegistry
  import HardwareStats

  datatype Position = Position(x: real, y: real)

  datatype Layout = Vertical | Horizontal

  /** Where the settings panel is anchored against the widget (always with an 8px margin). */
  datatype Placement = RightOf | LeftOf | Below | Above

  /** The panel's width for a layout (32.5rem or 14rem, in pixels). */
  function SettingsWidth(layout: Layout): real {
    if layout == Horizontal then 520.0 else 224.0
  }

  function SettingsHeight(layout: Layout): real {
    if layout == Horizontal then 240.0 else 330.0
  }

  /**
   * The placement effect: beside a vertical widget, below a horizontal one,
   * when the window leaves more than the panel's size plus a margin on that
   * side; otherwise on the opposite side.
   */
  function SettingsPlacement(layout: Layout, innerWidth: real, innerHeight: real,
                             widgetRight: real, widgetBottom: real): (p: Placement)
    ensures layout == Vertical ==> (p == RightOf || p == LeftOf)
    ensures layout == Vertical ==> (p == RightOf <==> innerWidth - widgetRight > 224.0 + 16.0)
    ensures layout == Horizontal ==> (p == Below || p == Above)
    ensures layout == Horizontal ==> (p == Below <==> innerHeight - widgetBottom > 240.0 + 48.0)
  {
    if layout == Vertical then
      var spaceOnRight := innerWidth - widgetRight;
      if spaceOnRight > SettingsWidth(layout) + 16.0 then RightOf else LeftOf
    else
      var spaceBelow := innerHeight - widgetBottom;
      if spaceBelow > SettingsHeight(layout) + 48.0 then Below else Above
  }

  /** Moving the widget towards the window's lower right corner never moves the panel back to the preferred side. */
  lemma {:induction false} PlacementFlipsOnce(layout: Layout, innerWidth: real, innerHeight: real,
                                             right1: real, bottom1: real, right2: real, bottom2: real)
    requires right1 <= right2 && bottom1 <= bottom2
    ensures SettingsPlacement(layout, innerWidth, innerHeight, right2, bottom2) in {RightOf, Below} ==>
      SettingsPlacement(layout, innerWidth, innerHeight, right1, bottom1)
        == SettingsPlacement(layout, innerWidth, innerHeight, right2, bottom2)
  {
    var p1 := SettingsPlacement(layout, innerWidth, innerHeight, right1, bottom1);
    var p2 := SettingsPlacement(layout, innerWidth, innerHeight, right2, bottom2);
    if layout == Vertical {
      assert p2 == RightOf ==> innerWidth - right1 > 240.0;
    } else {
      assert p2 == Below ==> innerHeight - bottom1 > 288.0;
    }
  }

  /** The component's state. */
  class Widget {
    var position: Position
    var isDragging: bool
    /** offsetRef: where inside the widget the pointer grabbed it. */
    var offset: Position
    var showSettings: bool
    var layout: Layout
    var selectedDiskId: string
    var draggedMetricId: Option<string>
    var metrics: seq<Metric>
    /** The last computed placement; none until the panel is first opened. */
    var settingsStyle: Option<Placement>

    /** The registry always holds the eleven initial ids, in some order. */
    ghost predicate Valid()
      reads this
    {
      |metrics| == |InitialMetrics| && multiset(Ids(metrics)) == multiset(Ids(InitialMetrics))
    }

    constructor (innerHeight: real, disks: seq<HardwareStats.Disk>)
      ensures Valid()
      ensures position == Position(100.0, innerHeight - 550.0) && offset == Position(0.0, 0.0)
      ensures !isDragging && !showSettings && layout == Horizontal
      ensures selectedDiskId == InitialDiskId(disks)
      ensures draggedMetricId == None && metrics == InitialMetrics && settingsStyle == None
    {
      position := Position(100.0, innerHeight - 550.0);
      isDragging := false;
      offset := Position(0.0, 0.0);
      showSettings := false;
      layout := Horizontal;
      selectedDiskId := InitialDiskId(disks);
      draggedMetricId := None;
      metrics := InitialMetrics;
      settingsStyle := None;
    }

    /**
     * handleMouseDown: a press on the settings panel or a button does nothing;
     * anywhere else it starts a drag and records the pointer's offset from the
     * widget's top-left corner.
     */
    method MouseDown(onInteractiveChild: bool, clientX: real, clientY: real, rectLeft: real, rectTop: real)
      modifies this`isDragging, this`offset
      ensures onInteractiveChild ==> isDragging == old(isDragging) && offset == old(offset)
      ensures !onInteractiveChild ==> isDragging && offset == Position(clientX - rectLeft, clientY - rectTop)
    {
      if onInteractiveChild {
        return;
      }
      isDragging := true;
      offset := Position(clientX - rectLeft, clientY - rectTop);
    }

    /** handleMouseMove: while dragging, the widget follows the pointer at the grabbed offset. */
    method MouseMove(clientX: real, clientY: real)
      modifies this`position
      ensures old(isDragging) ==> position == Position(clientX - offset.x, clientY - offset.y)
      ensures !old(isDragging) ==> position == old(position)
    {
      if !isDragging {
        return;
      }
      position := Position(clientX - offset.x, clientY - offset.y);
    }

    /** handleMouseUp: any release ends the drag. */
    method MouseUp()
      modifies this`isDragging
      ensures !isDragging
    {
      isDragging := false;
    }

    /** handleToggleMetric. */
    method ToggleMetric(id: string)
      requires Valid()
      modifies this`metrics
      ensures Valid() && metrics == Toggled(old(metrics), id)
    {
      var toggled := Toggled(metrics, id);
      assert Ids(toggled) == Ids(metrics);
      metrics := toggled;
    }

    /** handleDragStart: remembers which row is being dragged. */
    method DragStart(id: string)
      modifies this`draggedMetricId
      ensures draggedMetricId == Some(id)
    {
      draggedMetricId := Some(id);
    }

    /**
     * handleDrop: reorders the registry and forgets the dragged row; when no
     * row (or the target itself) is being dragged it changes nothing, not even
     * the dragged id.
     */
    method Drop(targetId: string)
      requires Valid()
      modifies this`metrics, this`draggedMetricId
      ensures Valid()
      ensures var d := old(draggedMetricId);
        if d.None? || d.value == "" || d.value == targetId then
          metrics == old(metrics) && draggedMetricId == d
        else
          draggedMetricId == None && multiset(metrics) == multiset(old(metrics))
          && (HasId(old(metrics), d.value) && HasId(old(metrics), targetId) ==>
                metrics == Moved(old(metrics), IndexOf(old(metrics), d.value), IndexOf(old(metrics), targetId)))
    {
      var newMetrics, dropped := Reorder(metrics, draggedMetricId, targetId);
      if !dropped {
        return;
      }
      metrics := newMetrics;
      draggedMetricId := None;
    }

    /** The settings button: opens or closes the panel. */
    method ToggleSettings()
      modifies this`showSettings
      ensures showSettings == !old(showSettings)
    {
      showSettings := !showSettings;
    }

    method SetLayout(l: Layout)
      modifies this`layout
      ensures layout == l
    {
      layout := l;
    }

    /** The disk picker: records the chosen id; resolving it happens on refresh. */
    method SelectDisk(id: string)
      modifies this`selectedDiskId
      ensures selectedDiskId == id
    {
      selectedDiskId := id;
    }

    /** The placement layout effect: recomputed only while the panel is open. */
    method PlaceSettings(innerWidth: real, innerHeight: real, widgetRight: real, widgetBottom: real)
      modifies this`settingsStyle
      ensures showSettings ==>
        settingsStyle == Some(SettingsPlacement(layout, innerWidth, innerHeight, widgetRight, widgetBottom))
      ensures !showSettings ==> settingsStyle == old(settingsStyle)
    {
      if showSettings {
        settingsStyle := Some(SettingsPlacement(layout, innerWidth, innerHeight, widgetRight, widgetBottom));
      }
    }

    /** The refresh effect, run whenever a reading or the tracked disk changes. */
    method Refresh(hw: HardwareStats.Snapshot, downloadSpeed: real, uploadSpeed: real)
      requires Valid() && hw.disks != []
      modifies this`metrics
      ensures Valid()
      ensures metrics ==
        Recompute(old(metrics), hw, downloadSpeed, uploadSpeed, SelectedDisk(hw.disks, selectedDiskId).value)
    {
      var selectedDisk := SelectedDisk(hw.disks, selectedDiskId).value;
      var refreshed := Recompute(metrics, hw, downloadSpeed, uploadSpeed, selectedDisk);
      assert Ids(refreshed) == Ids(metrics);
      metrics := refreshed;
    }

    /** The record in the header slot, shown when present and visible. */
    function Header(): (r: Option<Metric>)
      reads this
      ensures r.Some? ==> r.value in metrics && r.value.id == HeaderId
      ensures r.Some? ==> r.value == metrics[IndexOf(metrics, HeaderId)]
      ensures r.None? <==> !HasId(metrics, HeaderId)
    {
      HeaderMetric(metrics)
    }
  }

  /**
   * Press, move, release: the pointer keeps its grab point, so the widget's
   * corner moves by exactly the pointer's displacement, and only while the
   * button is held.
   */
  method DragGesture(w: Widget, pressX: real, pressY: real, moveX: real, moveY: real)
    modifies w`position, w`isDragging, w`offset
    ensures w.position == Position(old(w.position.x) + moveX - pressX, old(w.position.y) + moveY - pressY)
    ensures !w.isDragging
  {
    w.MouseDown(false, pressX, pressY, w.position.x, w.position.y);
    w.MouseMove(moveX, moveY);
    w.MouseUp();
    w.MouseMove(moveX + 1.0, moveY + 1.0);
  }
}
