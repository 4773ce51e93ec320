/** The application object `Wbbmtt`: its settings, the tracker of active
    touch pointers, the canvas it repaints, and the two debounced actions
    (redraw after a resize, clear after a shake). */
module App {

  import opened Optional
  import opened Tracker
  import opened Format
  import opened Render
  import opened Debounce
  import opened Query

  const RESIZE_DELAY: nat := 300
  const SHAKE_CLEAR_DELAY: nat := 1000
  const ACCEL_SQ_THRESHOLD: real := 300.0

  /** `event.acceleration` of a devicemotion event. */
  datatype Acceleration = Acceleration(x: real, y: real, z: real)

  function SquaredMagnitude(a: Acceleration): (sq: real)
    ensures 0.0 <= sq
  {
    a.x * a.x + a.y * a.y + a.z * a.z
  }

  /** A devicemotion event counts as a shake when shake clearing is enabled,
      the event carries an acceleration, and its squared magnitude exceeds
      the threshold. */
  predicate IsShake(useShakeOperation: bool, acceleration: Option<Acceleration>) {
    acceleration.Some? && useShakeOperation && ACCEL_SQ_THRESHOLD < SquaredMagnitude(acceleration.value)
  }

  class Wbbmtt {
    const config: Config
    const preventDefaultNonPointer: bool
    const manualClearMode: bool
    const useShakeOperation: bool
    var activePointers: seq<Entry>
    const canvas: Canvas?
    const resizeTimer: Debouncer<()>
    const shakeTimer: Debouncer<()>

    ghost predicate Valid()
      reads this
    {
      && WellFormed(activePointers)
      && resizeTimer != shakeTimer
      && resizeTimer.wait == RESIZE_DELAY
      && shakeTimer.wait == SHAKE_CLEAR_DELAY
    }

    /** The constructor: settings from the query object, an empty tracker.
        `markSizeScale` and `gridSpan` are the numeric query values. The
        debounced handlers, created on first use in the source, exist from
        the start here with no timer pending. */
    constructor(query: QueryObject, markSizeScale: real, gridSpan: real, canvas: Canvas?)
      ensures Valid()
      ensures config == SettingsFromQuery(query, markSizeScale, gridSpan)
      ensures preventDefaultNonPointer == !QueryValueCheckbox(query, "noPreventDefault", false)
      ensures manualClearMode == QueryValueCheckbox(query, "shakeClearMode", false)
      ensures useShakeOperation == manualClearMode
      ensures activePointers == [] && this.canvas == canvas
      ensures fresh(resizeTimer) && fresh(shakeTimer)
      ensures resizeTimer.State() == Timer(None, None) && shakeTimer.State() == Timer(None, None)
    {
      var shakeClearMode := QueryValueCheckbox(query, "shakeClearMode", false);
      config := SettingsFromQuery(query, markSizeScale, gridSpan);
      preventDefaultNonPointer := !QueryValueCheckbox(query, "noPreventDefault", false);
      manualClearMode := shakeClearMode;
      useShakeOperation := shakeClearMode;
      activePointers := [];
      this.canvas := canvas;
      resizeTimer := new Debouncer(RESIZE_DELAY);
      shakeTimer := new Debouncer(SHAKE_CLEAR_DELAY);
    }

    /** `storePointer`: Map.set of the event's record under its pointerId. */
    method StorePointer(e: PointerEvent)
      modifies this
      ensures activePointers == MapSet(old(activePointers), e.pointerId, Record(e))
    {
      activePointers := MapSet(activePointers, e.pointerId, Record(e));
    }

    /** `_pointerHandler`: non-touch pointers are ignored before anything
        happens; otherwise the tracker is updated and the canvas repainted,
        also for an event type it does not know. */
    method PointerHandler(e: PointerEvent)
      requires Valid()
      modifies this, canvas
      ensures Valid()
      ensures activePointers == ApplyEvent(old(activePointers), e)
      ensures e.pointerType != TOUCH ==> canvas != null ==>
                && canvas.width == old(canvas.width) && canvas.height == old(canvas.height)
                && canvas.commands == old(canvas.commands)
      ensures e.pointerType == TOUCH ==> canvas != null ==>
                && canvas.width == old(canvas.width) && canvas.height == old(canvas.height)
                && canvas.commands == old(canvas.commands) + Frame(config, activePointers, canvas.width, canvas.height)
    {
      if e.pointerType != TOUCH {
        return;
      }
      ApplyEventLookup(activePointers, e, e.pointerId);
      match e.eventType {
        case PointerDown =>
          StorePointer(e);
        case PointerMove =>
          if Has(activePointers, e.pointerId) {
            StorePointer(e);
          }
        case PointerUp =>
          RemoveReleased(e.pointerId);
        case PointerCancel =>
          RemoveReleased(e.pointerId);
        case Unknown(_) =>
      }
      DrawTouches();
    }

    /** The shared `pointerup` / `pointercancel` branch: a known pointer is
        deleted, and both `manualClearMode` branches do the same. */
    method RemoveReleased(id: int)
      modifies this
      ensures activePointers == if Has(old(activePointers), id) then MapDelete(old(activePointers), id) else old(activePointers)
    {
      if Has(activePointers, id) {
        if manualClearMode {
          activePointers := MapDelete(activePointers, id);
        } else {
          activePointers := MapDelete(activePointers, id);
        }
      }
    }

    /** `_drawTouchPoint`: crosshair, disc, ring and the label found by
        counting the keys before this pointer. */
    method DrawTouchPoint(info: PointerInfo, color: string)
      requires canvas != null
      modifies canvas
      ensures canvas.width == old(canvas.width) && canvas.height == old(canvas.height)
      ensures canvas.commands == old(canvas.commands) + Marker(config, activePointers, info, color, canvas.width, canvas.height)
    {
      var px, py := info.pageX, info.pageY;
      canvas.commands := canvas.commands + [Crosshair(px, py, color, canvas.width, canvas.height)];
      canvas.commands := canvas.commands + [Disc(px, py, config.markRadius1, color)];
      canvas.commands := canvas.commands + [Ring(px, py, config.markRadius2, config.mark2Width)];
      var ordinal := 0;
      while ordinal < |activePointers| && activePointers[ordinal].0 != info.identifier
        invariant ordinal <= |activePointers|
        invariant forall j :: 0 <= j < ordinal ==> activePointers[j].0 != info.identifier
      {
        ordinal := ordinal + 1;
      }
      IndexOfFirst(activePointers, info.identifier, ordinal);
      canvas.commands := canvas.commands + [Label(ordinal + 1, px, py)];
    }

    /** `_drawTouches`: background, grid, one marker per pointer, one text
        line per pointer, and the idle message when no pointer is active.
        Nothing is drawn without a canvas. */
    method DrawTouches()
      modifies canvas
      ensures canvas != null ==>
                && canvas.width == old(canvas.width) && canvas.height == old(canvas.height)
                && canvas.commands == old(canvas.commands) + Frame(config, activePointers, canvas.width, canvas.height)
    {
      if canvas == null {
        return;
      }
      var m := activePointers;
      var width, height := canvas.width, canvas.height;
      if config.backGroundColor != "" {
        canvas.commands := canvas.commands + [FillRect(config.backGroundColor, width, height)];
      } else {
        canvas.commands := canvas.commands + [ClearRect(width, height)];
      }
      assert canvas.commands == old(canvas.commands) + Background(config, width, height);
      if 0.0 < config.gridSpan {
        DrawGrid(canvas, config.gridSpan);
      }
      ghost var backdrop := canvas.commands;
      ghost var grid := if 0.0 < config.gridSpan then Grid(width, height, config.gridSpan) else [];
      assert backdrop == old(canvas.commands) + Background(config, width, height) + grid;
      DrawMarkers();
      ghost var marked := canvas.commands;
      var entryExists := DrawTexts(canvas, m);
      ghost var texted := canvas.commands;
      if !entryExists {
        DrawIdleMessage(canvas, config.idleMessage, TouchColor(2));
      }
      ghost var idle := if |m| == 0 then [IdleMessage(config.idleMessage, TouchColor(2))] else [];
      assert canvas.commands == texted + idle;
      FrameAssembly(old(canvas.commands), config, m, width, height, backdrop, marked, texted, canvas.commands);
    }

    /** The first loop of `_drawTouches`: a marker per pointer, in key
        order, the i-th in colour i. */
    method DrawMarkers()
      requires canvas != null
      modifies canvas
      ensures canvas.width == old(canvas.width) && canvas.height == old(canvas.height)
      ensures canvas.commands == old(canvas.commands) + Markers(config, activePointers, |activePointers|, canvas.width, canvas.height)
    {
      var m := activePointers;
      var width, height := canvas.width, canvas.height;
      var i := 0;
      while i < |m|
        invariant i <= |m|
        invariant canvas.width == width && canvas.height == height
        invariant canvas.commands == old(canvas.commands) + Markers(config, m, i, width, height)
      {
        ghost var before := canvas.commands;
        DrawTouchPoint(m[i].1, TouchColor(i));
        MarkersGrow(before, old(canvas.commands), config, m, i, width, height);
        i := i + 1;
      }
    }

    /** The second loop of `_drawTouches`: a text line per pointer when
        touch properties are shown; reports whether any entry was visited. */
    method DrawTexts(c: Canvas, m: seq<Entry>) returns (entryExists: bool)
      modifies c
      ensures entryExists <==> 0 < |m|
      ensures c.width == old(c.width) && c.height == old(c.height)
      ensures c.commands == old(c.commands) + Texts(config, m)
    {
      entryExists := false;
      var i := 0;
      while i < |m|
        invariant i <= |m|
        invariant entryExists <==> 0 < i
        invariant c.width == old(c.width) && c.height == old(c.height)
        invariant config.showTouchProperties ==> c.commands == old(c.commands) + TextLines(config, m, i)
        invariant !config.showTouchProperties ==> c.commands == old(c.commands)
      {
        if config.showTouchProperties {
          DrawTouchString(c, m[i].1, TouchColor(i), i, config.showTouchRadius, config.showPointerType);
        }
        entryExists := true;
        i := i + 1;
      }
      if !config.showTouchProperties {
        assert old(c.commands) + [] == old(c.commands);
      }
    }

    /** `_clearTouches`: empty the tracker and repaint. */
    method ClearTouches()
      requires Valid()
      modifies this, canvas
      ensures Valid()
      ensures activePointers == []
      ensures canvas != null ==>
                && canvas.width == old(canvas.width) && canvas.height == old(canvas.height)
                && canvas.commands == old(canvas.commands) + Frame(config, [], canvas.width, canvas.height)
    {
      activePointers := [];
      DrawTouches();
    }

    /** `_resizeCanvasHandler`: a call to the resize debouncer. */
    method ResizeCanvasHandler(now: int)
      modifies resizeTimer
      ensures resizeTimer.State() == OnCall(old(resizeTimer.State()), resizeTimer.wait, now, ())
    {
      resizeTimer.Call(now, ());
    }

    /** `_resizeCanvas`: when the viewport size differs from the canvas size,
        the canvas takes the viewport size and is repainted. */
    method ResizeCanvas(viewportWidth: nat, viewportHeight: nat)
      modifies canvas
      ensures canvas != null ==> canvas.width == viewportWidth && canvas.height == viewportHeight
      ensures canvas != null ==>
                canvas.commands == if old(canvas.width) != viewportWidth || old(canvas.height) != viewportHeight
                                   then old(canvas.commands) + Frame(config, activePointers, viewportWidth, viewportHeight)
                                   else old(canvas.commands)
    {
      if canvas == null {
        return;
      }
      if canvas.width != viewportWidth || canvas.height != viewportHeight {
        canvas.width := viewportWidth;
        canvas.height := viewportHeight;
        DrawTouches();
      }
    }

    /** The clock reaches `now` for the resize debouncer; when its timer is
        due the canvas is resized to the viewport. */
    method ResizeTimerTick(now: int, viewportWidth: nat, viewportHeight: nat) returns (resized: bool)
      requires Valid()
      modifies resizeTimer, canvas
      ensures resizeTimer.State() == OnTick(old(resizeTimer.State()), now).0
      ensures resized == OnTick(old(resizeTimer.State()), now).1.Some?
      ensures !resized ==> canvas != null ==>
                && canvas.width == old(canvas.width) && canvas.height == old(canvas.height)
                && canvas.commands == old(canvas.commands)
      ensures resized ==> canvas != null ==>
                && canvas.width == viewportWidth && canvas.height == viewportHeight
                && canvas.commands == if old(canvas.width) != viewportWidth || old(canvas.height) != viewportHeight
                                      then old(canvas.commands) + Frame(config, activePointers, viewportWidth, viewportHeight)
                                      else old(canvas.commands)
    {
      var fired := resizeTimer.Tick(now);
      resized := fired.Some?;
      if resized {
        ResizeCanvas(viewportWidth, viewportHeight);
      }
    }

    /** `_devicemotionHandler`: a shake calls the shake debouncer; any other
        motion event does nothing. */
    method DevicemotionHandler(acceleration: Option<Acceleration>, now: int)
      modifies shakeTimer
      ensures shakeTimer.State() == if IsShake(useShakeOperation, acceleration)
                                    then OnCall(old(shakeTimer.State()), shakeTimer.wait, now, ())
                                    else old(shakeTimer.State())
    {
      if acceleration.None? {
        return;
      }
      var a := acceleration.value;
      var sq := SquaredMagnitude(a);
      if useShakeOperation && ACCEL_SQ_THRESHOLD < sq {
        shakeTimer.Call(now, ());
      }
    }

    /** The clock reaches `now` for the shake debouncer; when its timer is
        due the touches are cleared. */
    method ShakeTimerTick(now: int) returns (cleared: bool)
      requires Valid()
      modifies this, shakeTimer, canvas
      ensures Valid()
      ensures shakeTimer.State() == OnTick(old(shakeTimer.State()), now).0
      ensures cleared == OnTick(old(shakeTimer.State()), now).1.Some?
      ensures activePointers == if cleared then [] else old(activePointers)
      ensures !cleared ==> canvas != null ==>
                && canvas.width == old(canvas.width) && canvas.height == old(canvas.height)
                && canvas.commands == old(canvas.commands)
      ensures cleared ==> canvas != null ==>
                && canvas.width == old(canvas.width) && canvas.height == old(canvas.height)
                && canvas.commands == old(canvas.commands) + Frame(config, [], canvas.width, canvas.height)
    {
      var fired := shakeTimer.Tick(now);
      cleared := fired.Some?;
      if cleared {
        ClearTouches();
      }
    }
  }

  /** The pieces `_drawTouches` appends, in order, make up one frame. */
  lemma FrameAssembly(start: seq<Command>, cfg: Config, m: seq<Entry>, width: nat, height: nat,
                      backdrop: seq<Command>, marked: seq<Command>, texted: seq<Command>, finish: seq<Command>)
    requires backdrop == start + Background(cfg, width, height)
                         + (if 0.0 < cfg.gridSpan then Grid(width, height, cfg.gridSpan) else [])
    requires marked == backdrop + Markers(cfg, m, |m|, width, height)
    requires texted == marked + Texts(cfg, m)
    requires finish == texted + (if |m| == 0 then [IdleMessage(cfg.idleMessage, TouchColor(2))] else [])
    ensures finish == start + Frame(cfg, m, width, height)
  {
    var bg := Background(cfg, width, height);
    var grid := if 0.0 < cfg.gridSpan then Grid(width, height, cfg.gridSpan) else [];
    var marks := Markers(cfg, m, |m|, width, height);
    var texts := Texts(cfg, m);
    var idle := if |m| == 0 then [IdleMessage(cfg.idleMessage, TouchColor(2))] else [];
    assert Frame(cfg, m, width, height) == bg + grid + marks + texts + idle;
    Regroup(start, bg, grid, marks, texts, idle);
  }

  lemma Regroup(start: seq<Command>, a: seq<Command>, b: seq<Command>, c: seq<Command>, d: seq<Command>, e: seq<Command>)
    ensures start + a + b + c + d + e == start + (a + b + c + d + e)
  {
  }

  /** Drawing pointer i's marker after the first i markers gives the first i + 1. */
  lemma MarkersGrow(log: seq<Command>, start: seq<Command>, cfg: Config, m: seq<Entry>, i: nat, width: nat, height: nat)
    requires i < |m| && log == start + Markers(cfg, m, i, width, height)
    ensures log + Marker(cfg, m, m[i].1, TouchColor(i), width, height) == start + Markers(cfg, m, i + 1, width, height)
  {
    Extend(log, start, Markers(cfg, m, i, width, height), Marker(cfg, m, m[i].1, TouchColor(i), width, height),
           Markers(cfg, m, i + 1, width, height));
  }

  /** Appending to a log that already ends in a prefix extends that prefix. */
  lemma Extend(log: seq<Command>, start: seq<Command>, done: seq<Command>, more: seq<Command>, next: seq<Command>)
    requires log == start + done && next == done + more
    ensures log + more == start + next
  {
  }
}
