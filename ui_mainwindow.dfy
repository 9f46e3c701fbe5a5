/**
 * ui/mainwindow.py: the earlier window, which keeps the detection zones and their
 * draw/resize editor in the window itself and paints each person's box blue when its
 * centre lies in a zone.
 *
 * Its editor fields and event handlers behave as the zone editor of
 * desktop/view/widget/rectangles_list_label.py does, so the window holds that editor
 * and its handlers hand each event on, after turning the event's position into a
 * position on the image label.
 */
module LegacyWindow {
  import opened Wrappers
  import opened Geometry
  import opened MyRectModel
  import opened Recognition
  import opened ZoneEditor

  /** `get_mouse_position`: the event position relative to the label. */
  function MousePosition(eventPos: Point, labelPos: Point): (p: Point)
    ensures Point(p.x + labelPos.x, p.y + labelPos.y) == eventPos
  {
    Point(eventPos.x - labelPos.x, eventPos.y - labelPos.y)
  }

  /** The two pens of this window's `paint_recognitions`. */
  datatype Pen = Green | Blue

  /** A box is blue when its centre `(x + w // 2, y + h // 2)` lies in some zone. */
  function BoxPen(p: Person, zones: seq<MyRect>): Pen
  {
    if InSomeZone(zones, Centre(p.tlwh.x, p.tlwh.y, p.tlwh.w, p.tlwh.h)) then Blue else Green
  }

  class MainWindow {
    const recognizer: Recognizer
    const editor: RectanglesLabelList

    /** `MainWindow()`: the HUD shown, the recognizer started, no zones, nothing being
        drawn or resized. */
    constructor(config: TrackingConfig)
      ensures fresh(recognizer) && fresh(editor)
      ensures recognizer.isRunning && recognizer.hudVisible && recognizer.config == config
      ensures editor.rectangles == [] && editor.startPoint == None && editor.endPoint == None
      ensures editor.resizingRect == None && editor.resizeDirection == None
    {
      var rec := new Recognizer(config, true);
      editor := new RectanglesLabelList();
      recognizer := rec;
      new;
      recognizer.Start();
    }

    /** `toggle_hud`: flip the HUD's visibility. */
    method ToggleHud()
      modifies recognizer`hudVisible
      ensures recognizer.hudVisible == !old(recognizer.hudVisible)
    {
      recognizer.SetHudVisible(!recognizer.hudVisible);
    }

    /** `keyPressEvent`: Ctrl+Z drops the last zone, if there is one. */
    method KeyPress(key: Key, modifiers: set<Modifier>)
      modifies editor`rectangles
      ensures KeyStep(editor, key, modifiers)
    {
      editor.KeyPress(key, modifiers);
    }

    /** `mousePressEvent`, at the event's position relative to the label. */
    method MousePress(button: MouseButton, labelUnderMouse: bool, eventPos: Point, labelPos: Point)
      modifies editor`resizingRect, editor`resizeDirection, editor`startPoint, editor`endPoint
      ensures PressStep(editor, button, labelUnderMouse, MousePosition(eventPos, labelPos))
    {
      editor.MousePress(button, labelUnderMouse, MousePosition(eventPos, labelPos));
    }

    /** `mouseMoveEvent`; `raised` as for the zone editor. */
    method MouseMove(eventPos: Point, labelPos: Point) returns (raised: bool)
      modifies editor`rectangles, editor`endPoint
      ensures MoveStep(editor, MousePosition(eventPos, labelPos), raised)
    {
      raised := editor.MouseMove(MousePosition(eventPos, labelPos));
    }

    /** `mouseReleaseEvent`. */
    method MouseRelease(button: MouseButton)
      modifies editor`resizingRect, editor`rectangles, editor`startPoint, editor`endPoint
      ensures ReleaseStep(editor, button)
    {
      editor.MouseRelease(button);
    }

    /** The pen choice of `paint_recognitions`: each box starts green and turns blue at
        the first zone holding its centre. */
    method PaintPens() returns (pens: seq<Pen>)
      ensures |pens| == |recognizer.recognizedPersons|
      ensures forall i | 0 <= i < |pens| :: pens[i] == BoxPen(recognizer.recognizedPersons[i], editor.rectangles)
    {
      var persons := recognizer.recognizedPersons;
      pens := [];
      for i := 0 to |persons|
        invariant |pens| == i
        invariant forall k | 0 <= k < i :: pens[k] == BoxPen(persons[k], editor.rectangles)
      {
        var p := persons[i];
        var pen := Green;
        var midPoint := Centre(p.tlwh.x, p.tlwh.y, p.tlwh.w, p.tlwh.h);
        var hit := AnyZoneContains(editor.rectangles, midPoint);
        if hit {
          pen := Blue;
        }
        pens := pens + [pen];
      }
    }
  }
}
