/**
 * desktop/mainwindow.py: the desktop window's decisions. On each frame it marks the
 * recognised persons whose centre lies in a detection zone, and it chooses the pen for
 * each person's box. It also rescales saved zones to the current frame size, toggles
 * the recognizer's HUD, and asks for a camera index until the answer is a number or
 * the dialog is cancelled.
 *
 * The window's widgets are the objects it owns: the recognizer, the zone editor and the
 * marked-persons widget. Painting, dialogs, files and video sources are not part of this
 * model: a saved configuration arrives as a value, and the dialog's answers arrive as a
 * sequence.
 */
module DesktopWindow {
  import opened Wrappers
  import opened Geometry
  import opened Text
  import opened MyRectModel
  import opened Recognition
  import opened ZoneEditor
  import opened MarkedPersons

  /** The centre `(x + w // 2, y + h // 2)` of a person's box. */
  function PersonCentre(p: Person): Point
  {
    Centre(p.tlwh.x, p.tlwh.y, p.tlwh.w, p.tlwh.h)
  }

  // ----- marking -----

  /** The marked-persons registry as a value: the map from name to person and the rows. */
  datatype Registry = Registry(marked: map<string, Person>, rows: seq<string>)

  /** A person `process_recognitions` adds when the name is not yet marked: it has a
      score, it is not unknown, and its centre lies in some zone. */
  predicate Qualifies(p: Person, zones: seq<MyRect>)
  {
    p.score.Some? && !p.isUnknown && InSomeZone(zones, PersonCentre(p))
  }

  /** One person of `process_recognitions`: skipped without a score; a marked name is
      updated in place; any other name is added (one new row) when the person qualifies. */
  function MarkStep(s: Registry, p: Person, zones: seq<MyRect>): Registry
  {
    if p.score.None? then s
    else if p.name in s.marked then Registry(s.marked[p.name := p], s.rows)
    else if Qualifies(p, zones) then Registry(s.marked[p.name := p], s.rows + [p.name])
    else s
  }

  /** The persons taken one after the other. */
  function MarkAll(s: Registry, ps: seq<Person>, zones: seq<MyRect>): Registry
  {
    if |ps| == 0 then s else MarkStep(MarkAll(s, ps[..|ps| - 1], zones), ps[|ps| - 1], zones)
  }

  /** A step keeps the registry consistent: a marked name never gets a second row. */
  lemma MarkStepConsistent(s: Registry, p: Person, zones: seq<MyRect>)
    requires ConsistentState(s.marked, s.rows)
    ensures ConsistentState(MarkStep(s, p, zones).marked, MarkStep(s, p, zones).rows)
  {
    if p.score.Some? && p.name !in s.marked && Qualifies(p, zones) {
      var rows := s.rows + [p.name];
      forall a, b | 0 <= a < b < |rows| ensures rows[a] != rows[b] {
        if b == |rows| - 1 {
          assert rows[a] in s.rows;
        }
      }
    }
  }

  /** Marking a whole list of persons keeps the registry consistent, so no name is ever
      added twice, within one call or across calls. */
  lemma {:induction false} MarkAllConsistent(s: Registry, ps: seq<Person>, zones: seq<MyRect>)
    requires ConsistentState(s.marked, s.rows)
    ensures ConsistentState(MarkAll(s, ps, zones).marked, MarkAll(s, ps, zones).rows)
  {
    if |ps| > 0 {
      MarkAllConsistent(s, ps[..|ps| - 1], zones);
      MarkStepConsistent(MarkAll(s, ps[..|ps| - 1], zones), ps[|ps| - 1], zones);
    }
  }

  /** One step marks exactly the names marked before and the name of a qualifying person. */
  lemma MarkStepKeys(s: Registry, p: Person, zones: seq<MyRect>)
    ensures MarkStep(s, p, zones).marked.Keys ==
      s.marked.Keys + (if Qualifies(p, zones) then {p.name} else {})
  {
  }

  /** After marking, a name is marked exactly when it was marked before or some person
      of that name qualified. */
  lemma {:induction false} MarkAllKeys(s: Registry, ps: seq<Person>, zones: seq<MyRect>)
    ensures forall n :: n in MarkAll(s, ps, zones).marked <==>
      n in s.marked || exists i | 0 <= i < |ps| :: ps[i].name == n && Qualifies(ps[i], zones)
  {
    if |ps| > 0 {
      var init := ps[..|ps| - 1];
      MarkAllKeys(s, init, zones);
      MarkStepKeys(MarkAll(s, init, zones), ps[|ps| - 1], zones);
      forall n ensures n in MarkAll(s, ps, zones).marked <==>
        n in s.marked || exists i | 0 <= i < |ps| :: ps[i].name == n && Qualifies(ps[i], zones)
      {
        if exists i | 0 <= i < |init| :: init[i].name == n && Qualifies(init[i], zones) {
          var i :| 0 <= i < |init| && init[i].name == n && Qualifies(init[i], zones);
          assert ps[i] == init[i];
        }
        if exists i | 0 <= i < |ps| :: ps[i].name == n && Qualifies(ps[i], zones) {
          var i :| 0 <= i < |ps| && ps[i].name == n && Qualifies(ps[i], zones);
          if i < |init| {
            assert init[i] == ps[i];
          }
        }
      }
    }
  }

  /** Marking only appends rows: the earlier rows stay, in order, ahead of the new ones. */
  lemma {:induction false} MarkAllKeepsRows(s: Registry, ps: seq<Person>, zones: seq<MyRect>)
    ensures |s.rows| <= |MarkAll(s, ps, zones).rows|
    ensures MarkAll(s, ps, zones).rows[..|s.rows|] == s.rows
  {
    if |ps| > 0 {
      var before := MarkAll(s, ps[..|ps| - 1], zones);
      MarkAllKeepsRows(s, ps[..|ps| - 1], zones);
      assert MarkAll(s, ps, zones).rows[..|s.rows|] == before.rows[..|s.rows|];
    }
  }

  // ----- pens -----

  /** The pens of `paint_recognitions`. */
  datatype Pen = Green | Blue | Purple | Red

  /** The colour policy, by priority: an unknown face is red whatever else holds; a
      marked name is purple; a centre inside a zone is blue; anything else is green. */
  function BoxPen(p: Person, marked: map<string, Person>, zones: seq<MyRect>): Pen
  {
    if p.isUnknown then Red
    else if p.name in marked then Purple
    else if InSomeZone(zones, PersonCentre(p)) then Blue
    else Green
  }

  // ----- saved zones -----

  /** `Save`: the zones and the frame size they were drawn on. */
  datatype Save = Save(rectangles: seq<MyRect>, imageWidth: int, imageHeight: int)

  /** Why `load_save` stops: no frame yet, a saved size of zero (ZeroDivisionError), or
      an argument the Qt binding refuses to take as an int (TypeError). */
  datatype LoadError = NoFrame | ZeroDivision | BadArgument

  /** How the Qt binding turns a Python number passed for an int argument into an int;
      None when it refuses it. The binding's code is not part of this model. */
  type QtInt = real -> Option<int>

  /** Python's `int(x)` on a float: truncation toward zero. */
  function Trunc(x: real): (n: int)
    ensures x >= 0.0 ==> 0 <= n && n as real <= x < n as real + 1.0
    ensures x < 0.0 ==> n <= 0 && n as real - 1.0 < x <= n as real
  {
    if x >= 0.0 then x.Floor else -((-x).Floor)
  }

  /** One rescaled zone: x and width by the x ratio and y by the y ratio, each truncated,
      while the height is `int(h) * y_ratio`, a number that is not truncated and goes to
      the binding as it is. The new zone is black and has no type. */
  function ScaleZone(r: MyRect, xr: real, yr: real, qtInt: QtInt): Option<MyRect>
  {
    var b := r.bounds;
    match qtInt(Height(b) as real * yr)
    case None => None
    case Some(h) =>
      Some(NewMyRect(Trunc(b.left as real * xr), Trunc(b.top as real * yr), Trunc(Width(b) as real * xr), h))
  }

  /** All zones rescaled, in order; None when one of them is refused. */
  function ScaleAll(zones: seq<MyRect>, xr: real, yr: real, qtInt: QtInt): (r: Option<seq<MyRect>>)
    ensures r.Some? <==> forall i | 0 <= i < |zones| :: ScaleZone(zones[i], xr, yr, qtInt).Some?
    ensures r.Some? ==>
      |r.value| == |zones| &&
      forall i | 0 <= i < |zones| :: ScaleZone(zones[i], xr, yr, qtInt) == Some(r.value[i])
  {
    if |zones| == 0 then Some([])
    else
      var init := ScaleAll(zones[..|zones| - 1], xr, yr, qtInt);
      var last := ScaleZone(zones[|zones| - 1], xr, yr, qtInt);
      if init.None? || last.None? then None else Some(init.value + [last.value])
  }

  /** `int()` of a whole number is that number. */
  lemma TruncWhole(n: int)
    ensures Trunc(n as real) == n
  {
  }

  /** Rescaling by 1 keeps a zone's position and size, when the binding takes its height
      as it is. */
  lemma ScaleZoneByOne(r: MyRect, qtInt: QtInt)
    requires qtInt(Height(r.bounds) as real) == Some(Height(r.bounds))
    ensures ScaleZone(r, 1.0, 1.0, qtInt) == Some(r.(color := Black, kind := None))
  {
    var b := r.bounds;
    assert Height(b) as real * 1.0 == Height(b) as real;
    assert b.left as real * 1.0 == b.left as real;
    assert b.top as real * 1.0 == b.top as real;
    assert Width(b) as real * 1.0 == Width(b) as real;
    TruncWhole(b.left);
    TruncWhole(b.top);
    TruncWhole(Width(b));
  }

  /** Loading zones saved on a frame of the current size gives back the same zones, when
      the binding takes whole numbers as they are. */
  lemma SameSizeKeepsZones(zones: seq<MyRect>, qtInt: QtInt)
    requires forall n: int :: qtInt(n as real) == Some(n)
    ensures var r := ScaleAll(zones, 1.0, 1.0, qtInt);
      r.Some? && |r.value| == |zones| &&
      forall i | 0 <= i < |zones| :: r.value[i].bounds == zones[i].bounds
  {
    forall i | 0 <= i < |zones|
      ensures ScaleZone(zones[i], 1.0, 1.0, qtInt) == Some(zones[i].(color := Black, kind := None))
    {
      ScaleZoneByOne(zones[i], qtInt);
    }
  }

  /** The loop of `load_save` that builds the rescaled list, one zone after the other;
      None when the binding refuses an argument. */
  method RescaleZones(zones: seq<MyRect>, xRatio: real, yRatio: real, qtInt: QtInt)
    returns (r: Option<seq<MyRect>>)
    ensures r == ScaleAll(zones, xRatio, yRatio, qtInt)
  {
    var rectangles: seq<MyRect> := [];
    for i := 0 to |zones|
      invariant ScaleAll(zones[..i], xRatio, yRatio, qtInt) == Some(rectangles)
    {
      assert zones[..i + 1][..i] == zones[..i];
      var rect := ScaleZone(zones[i], xRatio, yRatio, qtInt);
      if rect.None? {
        return None;
      }
      rectangles := rectangles + [rect.value];
    }
    assert zones[..|zones|] == zones;
    return Some(rectangles);
  }

  // ----- camera dialog -----

  /** One showing of the camera-index dialog: accepted with its text, or cancelled. */
  datatype DialogAnswer = Accepted(text: string) | Cancelled

  /** What `get_camera_by_index` ends with: switch to the camera of that index, keep the
      current source, or (when the answers run out) still asking. */
  datatype CameraChoice = Switch(index: int) | Unchanged | StillAsking

  /** Every answer was an accepted text that is not a number, so the dialog came back. */
  predicate AllRetried(answers: seq<DialogAnswer>)
  {
    forall j | 0 <= j < |answers| :: answers[j].Accepted? && ParseInt(answers[j].text).None?
  }

  /** The outcome of a sequence of dialog answers. */
  function CameraOutcome(answers: seq<DialogAnswer>): CameraChoice
  {
    if |answers| == 0 then StillAsking
    else match answers[0]
      case Cancelled => Unchanged
      case Accepted(text) =>
        match ParseInt(text)
        case Some(n) => Switch(n)
        case None => CameraOutcome(answers[1..])
  }

  /** The answers before a decisive one all came back: the first one did, and so did
      the others. */
  lemma AllRetriedCons(a: seq<DialogAnswer>)
    requires |a| > 0
    ensures AllRetried(a) <==> a[0].Accepted? && ParseInt(a[0].text).None? && AllRetried(a[1..])
  {
    assert forall j | 0 <= j < |a| - 1 :: a[1..][j] == a[j + 1];
  }

  /** The dialog switches to camera `n` exactly when some answer parses as `n` and every
      answer before it was a text that is not a number. */
  lemma {:induction false} CameraSwitchIff(answers: seq<DialogAnswer>, n: int)
    ensures CameraOutcome(answers) == Switch(n) <==>
      exists k | 0 <= k < |answers| ::
        answers[k].Accepted? && ParseInt(answers[k].text) == Some(n) && AllRetried(answers[..k])
  {
    if |answers| > 0 {
      var rest := answers[1..];
      CameraSwitchIff(rest, n);
      forall k | 0 < k < |answers|
        ensures AllRetried(answers[..k]) <==>
          answers[0].Accepted? && ParseInt(answers[0].text).None? && AllRetried(rest[..k - 1])
        ensures answers[k] == rest[k - 1]
      {
        AllRetriedCons(answers[..k]);
        assert answers[..k][1..] == rest[..k - 1];
      }
      assert answers[..0] == [];
      if CameraOutcome(answers) == Switch(n) && answers[0].Accepted? && ParseInt(answers[0].text).None? {
        var k :| 0 <= k < |rest| && rest[k].Accepted? && ParseInt(rest[k].text) == Some(n) && AllRetried(rest[..k]);
        assert answers[k + 1] == rest[k];
      }
    }
  }

  /** The dialog keeps the current source exactly when it is cancelled after answers that
      were all texts that are not numbers. */
  lemma {:induction false} CameraUnchangedIff(answers: seq<DialogAnswer>)
    ensures CameraOutcome(answers) == Unchanged <==>
      exists k | 0 <= k < |answers| :: answers[k].Cancelled? && AllRetried(answers[..k])
  {
    if |answers| > 0 {
      var rest := answers[1..];
      CameraUnchangedIff(rest);
      forall k | 0 < k < |answers|
        ensures AllRetried(answers[..k]) <==>
          answers[0].Accepted? && ParseInt(answers[0].text).None? && AllRetried(rest[..k - 1])
        ensures answers[k] == rest[k - 1]
      {
        AllRetriedCons(answers[..k]);
        assert answers[..k][1..] == rest[..k - 1];
      }
      assert answers[..0] == [];
      if CameraOutcome(answers) == Unchanged && answers[0].Accepted? {
        var k :| 0 <= k < |rest| && rest[k].Cancelled? && AllRetried(rest[..k]);
        assert answers[k + 1] == rest[k];
      }
    }
  }

  /** Typing a number's decimal form, of at most `MaxStrDigits` digits, switches to that
      camera at once. */
  lemma TypedIndexSwitches(n: int, later: seq<DialogAnswer>)
    requires WithinDigitLimit(n)
    ensures CameraOutcome([Accepted(IntToString(n))] + later) == Switch(n)
  {
    ParseIntOfIntToString(n);
  }

  /** A typed index longer than `MaxStrDigits` digits makes `int()` raise, so the dialog
      asks again. */
  lemma LongIndexAsksAgain(n: nat, later: seq<DialogAnswer>)
    requires |NatToString(n)| > MaxStrDigits
    ensures CameraOutcome([Accepted(NatToString(n))] + later) == CameraOutcome(later)
  {
    LongDecimalRaises(n);
    assert ([Accepted(NatToString(n))] + later)[1..] == later;
  }

  /** The `while True` loop of `get_camera_by_index` over the dialog's answers: it also
      reports how many times the dialog was shown. */
  method GetCameraByIndex(answers: seq<DialogAnswer>) returns (choice: CameraChoice, shown: nat)
    ensures choice == CameraOutcome(answers)
    ensures 0 < shown <= |answers| ==> AllRetried(answers[..shown - 1])
    ensures choice == StillAsking <==> shown == |answers| && AllRetried(answers)
    ensures choice != StillAsking ==> 0 < shown <= |answers|
  {
    shown := 0;
    while shown < |answers|
      invariant 0 <= shown <= |answers|
      invariant CameraOutcome(answers[shown..]) == CameraOutcome(answers)
      invariant AllRetried(answers[..shown])
    {
      assert answers[..shown + 1][..shown] == answers[..shown];
      var answer := answers[shown];
      if answer.Cancelled? {
        return Unchanged, shown + 1;
      }
      var index := ParseInt(answer.text);
      if index.Some? {
        return Switch(index.value), shown + 1;
      }
      assert answers[shown..][1..] == answers[shown + 1..];
      assert answers[..shown + 1] == answers[..shown] + [answer];
      shown := shown + 1;
    }
    assert answers[..shown] == answers;
    if 0 < shown {
      assert answers[..shown][..shown - 1] == answers[..shown - 1];
    }
    return StillAsking, shown;
  }

  class MainWindow {
    const recognizer: Recognizer
    const editor: RectanglesLabelList
    const markedWidget: MarkedPersonsWidget
    /** The last frame shown; None before the first. */
    var frame: Option<Frame>

    /** `MainWindow()`: the HUD hidden, the recognizer started, no zones, nobody marked. */
    constructor(config: TrackingConfig)
      ensures fresh(recognizer) && fresh(editor) && fresh(markedWidget)
      ensures recognizer.isRunning && !recognizer.hudVisible && recognizer.config == config
      ensures editor.rectangles == [] && markedWidget.markedPersons == map[] && markedWidget.rows == []
      ensures markedWidget.Consistent() && frame == None
    {
      var rec := new Recognizer(config, true);
      var ed := new RectanglesLabelList();
      var marked := new MarkedPersonsWidget();
      recognizer := rec;
      editor := ed;
      markedWidget := marked;
      frame := None;
      new;
      ToggleHud(Some(false));
      recognizer.Start();
    }

    /** `toggle_hud`: a bool sets the HUD's visibility; anything else flips it. */
    method ToggleHud(state: Option<bool>)
      modifies recognizer`hudVisible
      ensures recognizer.hudVisible == (if state.Some? then state.value else !old(recognizer.hudVisible))
    {
      if state.Some? {
        recognizer.SetHudVisible(state.value);
      } else {
        recognizer.SetHudVisible(!recognizer.hudVisible);
      }
    }

    /** `process_recognitions`: mark the recognised persons that stand in a zone. */
    method ProcessRecognitions()
      modifies markedWidget
      ensures Registry(markedWidget.markedPersons, markedWidget.rows) ==
        MarkAll(Registry(old(markedWidget.markedPersons), old(markedWidget.rows)),
                recognizer.recognizedPersons, editor.rectangles)
      ensures old(markedWidget.Consistent()) ==> markedWidget.Consistent()
    {
      var persons, zones := recognizer.recognizedPersons, editor.rectangles;
      ghost var start := Registry(markedWidget.markedPersons, markedWidget.rows);
      for i := 0 to |persons|
        invariant Registry(markedWidget.markedPersons, markedWidget.rows) == MarkAll(start, persons[..i], zones)
      {
        assert persons[..i + 1][..i] == persons[..i];
        var p := persons[i];
        if p.score.Some? {
          var midPoint := Centre(p.tlwh.x, p.tlwh.y, p.tlwh.w, p.tlwh.h);
          if markedWidget.Contains(p.name) {
            markedWidget.UpdatePerson(p);
          } else {
            var hit := AnyZoneContains(zones, midPoint);
            if hit && !p.isUnknown {
              markedWidget.AddPerson(p);
            }
          }
        }
      }
      assert persons[..|persons|] == persons;
      if ConsistentState(start.marked, start.rows) {
        MarkAllConsistent(start, persons, zones);
      }
    }

    /** The pen choice of `paint_recognitions`: each box starts green, turns purple for a
        marked name or else blue at the first zone holding its centre, and turns red for
        an unknown face. */
    method PaintPens() returns (pens: seq<Pen>)
      ensures |pens| == |recognizer.recognizedPersons|
      ensures forall i | 0 <= i < |pens| ::
        pens[i] == BoxPen(recognizer.recognizedPersons[i], markedWidget.markedPersons, editor.rectangles)
    {
      var persons, zones := recognizer.recognizedPersons, editor.rectangles;
      pens := [];
      for i := 0 to |persons|
        invariant |pens| == i
        invariant forall k | 0 <= k < i :: pens[k] == BoxPen(persons[k], markedWidget.markedPersons, zones)
      {
        var p := persons[i];
        var pen := Green;
        if markedWidget.Contains(p.name) {
          pen := Purple;
        } else {
          var midPoint := Centre(p.tlwh.x, p.tlwh.y, p.tlwh.w, p.tlwh.h);
          var hit := AnyZoneContains(zones, midPoint);
          if hit {
            pen := Blue;
          }
        }
        if p.isUnknown {
          pen := Red;
        }
        pens := pens + [pen];
      }
    }

    /** `load_save` with the configuration already read: rescale the saved zones to the
        current frame and hand them to the editor. On an error nothing changes. */
    method LoadSave(save: Save, qtInt: QtInt) returns (r: Result<(), LoadError>)
      modifies editor`rectangles
      ensures frame.None? ==> r == Err(NoFrame)
      ensures frame.Some? && (save.imageWidth == 0 || save.imageHeight == 0) ==> r == Err(ZeroDivision)
      ensures frame.Some? && save.imageWidth != 0 && save.imageHeight != 0 ==>
        var scaled := ScaleAll(save.rectangles,
          frame.value.width as real / save.imageWidth as real,
          frame.value.height as real / save.imageHeight as real, qtInt);
        (r.Ok? <==> scaled.Some?) && (r.Ok? ==> editor.rectangles == scaled.value) &&
        (r.Err? ==> r.error == BadArgument)
      ensures r.Err? ==> editor.rectangles == old(editor.rectangles)
    {
      if frame.None? {
        return Err(NoFrame);
      }
      if save.imageWidth == 0 || save.imageHeight == 0 {
        return Err(ZeroDivision);
      }
      var xRatio := frame.value.width as real / save.imageWidth as real;
      var yRatio := frame.value.height as real / save.imageHeight as real;
      var rectangles := RescaleZones(save.rectangles, xRatio, yRatio, qtInt);
      if rectangles.None? {
        return Err(BadArgument);
      }
      editor.SetRectangles(rectangles.value);
      return Ok(());
    }
  }
}
