# Face-recognition CCTV desk: a verified model of its core

The program watches a video source. One loop detects faces, tracks them across frames and
filters the tracked boxes. A second loop matches each tracked box against the detections
and asks a face matcher for a name, then writes a caption ("name:score" or "UN_KNOWN")
under the track's ID. The tracking loop joins those captions back onto the tracked boxes
to list the recognised persons. A Qt window lets the operator draw detection zones on the
image, resize them by their corners and drop the last one with Ctrl+Z. The window marks
every known person whose box centre stands in a zone and paints each person's box in a
colour that tells unknown, marked, in-zone and other persons apart.

This project models that core in Dafny, one module per source file:

| module | file | source |
|---|---|---|
| `Wrappers` | wrappers.dfy | Option / Result, for Python's `None` and raised exceptions |
| `Geometry` | geometry.dfy | QPoint, QRect with Qt's inclusive right/bottom edges, `contains`, the box centre |
| `Text` | text.dfy | `str(int)`, Python's `int(text)`, `str.split(":")` |
| `MyRectModel` | my_rect.dfy | ui/myRect.py |
| `Recognition` | recognizer.dfy | recognizer.py |
| `MarkedPersons` | marked_persons_widget.dfy | desktop/view/widget/marked_persons_widget.py |
| `ZoneEditor` | rectangles_list_label.dfy | desktop/view/widget/rectangles_list_label.py |
| `DesktopWindow` | desktop_mainwindow.dfy | desktop/mainwindow.py |
| `LegacyWindow` | ui_mainwindow.dfy | ui/mainwindow.py |

Objects whose fields the program updates are classes:

- `Recognizer`, with its running and HUD flags, caption map, published snapshot and person list;
- the zone editor `RectanglesLabelList`;
- `MarkedPersonsWidget`;
- the two `MainWindow`s.

Each event handler or loop body is a method. Its `ensures` ties the new state to a
specification function (`JoinSpec`, `PassUpTo`, `MarkAll`, `ScaleAll`, `CameraOutcome`,
`KeptTargets`). The editor events are tied to one two-state predicate each (`PressStep`,
`MoveStep`, `ReleaseStep`, `KeyStep`). Lemmas state the program's promises about those
functions.

The two threads of the recognizer are modelled as two sequential steps:

- `Recognizer.TrackingStep` is one turn of the tracking loop;
- `Recognizer.RecognizePass` is one pass of the resolution loop over the snapshot the
  tracking step published.

The detector, the tracker, the face aligner and matcher, and the HUD drawing are code this
model does not contain. Their answers arrive as parameters:

- tracker targets, detection boxes and landmarks as values;
- the matcher as a function `Recognition`;
- score formatting as a function `ScoreFormat`;
- the drawing as a function `Annotate`;
- the Qt binding's int conversion as a function `QtInt`.

Mouse positions, `underMouse()`, saved configurations and dialog answers also arrive as
values.

The old window in ui/mainwindow.py keeps the same editor fields and handlers as the
desktop zone editor. The model gives it a `RectanglesLabelList`, and each handler passes
its event to that editor at the label-relative position. The state machine is therefore
defined once.

## Model

| member | source | states |
|---|---|---|
| Recognition.SamePersonIsEquivalence | recognizer.py:34-37 | two persons are equal iff their names are, whatever their score, box or unknown flag; this equality is symmetric and transitive |
| Recognition.EqualPersonsHashAlike | recognizer.py:31-32 | equal persons have equal hashes, the hash of the name |
| Recognition.MappingBbox | recognizer.py:263-294 | the IoU of two `[x_min, y_min, x_max, y_max]` boxes counting pixels inclusively (the +1 on each side): the clamped intersection area over the union of the two areas less the intersection, None (numpy's NaN) when the union is zero |
| Recognition.MappingBboxSymmetric | recognizer.py:275-292 | the IoU does not depend on the order of the two boxes |
| Recognition.MappingBboxSelf | recognizer.py:280-292 | a box whose far edges are not before its near ones has IoU exactly 1 with itself |
| Recognition.IntersectionBounded | recognizer.py:280-286 | a positive intersection is at most the area of either box |
| Recognition.ZeroUnionMeansNaN | recognizer.py:289-292 | a zero union comes with a zero intersection, so the numpy division gives NaN and never infinity |
| Recognition.MappingBboxSeparated | recognizer.py:275-282 | boxes with a gap of at least one pixel on either axis have no intersection, and IoU 0 when well formed |
| Recognition.MappingBboxRange | recognizer.py:280-292 | for well-formed boxes the IoU is a number in [0, 1] |
| Recognition.KeptTargets | recognizer.py:134-139 | the tracker targets, in their order, whose `w * h` exceeds `min_box_area` and whose `w / h` is not above `aspect_ratio_thresh` under numpy's division |
| Recognition.KeptTargetsMembership | recognizer.py:134-139 | a target is kept iff it is a tracker target with area above `min_box_area` and is not vertical by numpy's division (zero height gives ±inf or NaN) |
| Recognition.KeptTargetsConcat | recognizer.py:134-144 | the filter distributes over concatenation, so kept targets keep the tracker's order |
| Recognition.FilterTargets | recognizer.py:134-144 | the loop builds boxes, IDs, scores and bboxes index-aligned with the kept targets, each bbox being `[x, y, x+w, y+h]` |
| Recognition.Caption | recognizer.py:227-230 | the caption is "UN_KNOWN" for a score below 0.25 and otherwise the name, a colon and the formatted score |
| Recognition.CaptionUnknownIff | recognizer.py:227-230 | a caption is "UN_KNOWN" iff the score is below 0.25 |
| Recognition.PersonFromCaption | recognizer.py:151-154 | "UN_KNOWN" gives an unknown person with score 0; any other caption must split at colons into exactly a name and a score, and otherwise `Person(*parts)` raises TypeError |
| Recognition.UnknownCaptionRoundTrip | recognizer.py:150-155 | a low-score caption joins back as an unknown person named UN_KNOWN with score 0 and the track's box |
| Recognition.NamedCaptionRoundTrip | recognizer.py:150-155 | a "name:score" caption joins back as that name and formatted score, when neither holds a colon |
| Recognition.Zip | recognizer.py:147 | the zip has the shorter length and pairs IDs and boxes index by index |
| Recognition.Mapped | recognizer.py:150 | every track kept by the join has a non-empty caption |
| Recognition.JoinSpec | recognizer.py:146-157 | the tracks, in order, each with a truthy caption in the map, turned into persons, with the first raised TypeError ending the join |
| Recognition.JoinSpecShape | recognizer.py:146-157 | the join succeeds iff every captioned track's caption splits into exactly two parts; it then lists one person per captioned track, in track order, with that track's box |
| Recognition.MappedSubset | recognizer.py:146-155 | the captioned tracks are tracks of the input |
| Recognition.JoinSpecErrPersists | recognizer.py:152 | once a caption raises, the join of any longer track list raises too |
| Recognition.BuildRecognized | recognizer.py:146-155 | the join loop computes exactly the join specification, person list or raised error |
| Recognition.FirstClaim | recognizer.py:220-232 | the search over the remaining detections returns a position at or after the start whose detection is acceptable for the track: IoU above 0.9 and a name from the matcher |
| Recognition.FirstClaimIsFirst | recognizer.py:220-232 | the inner loop claims the first remaining detection with IoU > 0.9 and a matcher name, and none iff there is no such detection; a nameless match is skipped without being consumed |
| Recognition.StepTrack | recognizer.py:219-239 | a track's step appends exactly one claim decision and keeps the pool within the detections |
| Recognition.PassUpTo | recognizer.py:219-239 | after `n` tracks there are `n` claim decisions |
| Recognition.StepConsistent | recognizer.py:234-239 | a step keeps every detection either free or claimed, never both, with no detection claimed twice |
| Recognition.PassUpToConsistent | recognizer.py:219-239 | a whole pass claims each detection at most once, and a claimed detection is deleted from both arrays for good |
| Recognition.StepFrame | recognizer.py:232-234 | a track's step writes at most its own ID, and nothing when it claims nothing |
| Recognition.StepWrites | recognizer.py:222-234 | a claiming step claims an acceptable detection and writes that detection's caption under the track's ID |
| Recognition.PassKeys | recognizer.py:219-239 | a pass adds exactly the IDs of the claiming tracks to the caption map and removes none |
| Recognition.PassFrame | recognizer.py:219-239 | every entry not under a claiming track's ID is untouched |
| Recognition.LastWriteCarries | recognizer.py:234 | a step that keeps every entry except the new claimer's preserves the caption of an earlier claim that stays the last for its ID |
| Recognition.PassLastWriteWins | recognizer.py:234 | the last claiming track with a given ID decides that ID's caption, overwriting what the map held |
| Recognition.PoolViewRemove | recognizer.py:236-237 | deleting row `j` from both detection arrays keeps boxes and landmarks aligned with the remaining pool |
| Recognition.Recognizer.constructor | recognizer.py:41-77 | a new recognizer is not running, has no captions, an empty snapshot, no persons and no image |
| Recognition.Recognizer.GetImage | recognizer.py:94-97 | before the first frame the image is a white 900 x 1600 x 3 placeholder, and afterwards it is the last tracking image |
| Recognition.Recognizer.SetHudVisible | recognizer.py:99-101 | the HUD flag takes the given value |
| Recognition.Recognizer.ProcessTracking | recognizer.py:108-175 | the persons become the join of the filtered tracks; the image is annotated iff the HUD is visible; the snapshot is published even without detector outputs; a raising join changes nothing |
| Recognition.Recognizer.TrackingStep | recognizer.py:308-316 | one turn of the tracking loop processes the source frame, or the white placeholder without one: the persons become the join of the kept tracks, the published image is that frame annotated iff the HUD is visible, and the snapshot holds the frame, the kept IDs and boxes and the detections; without tracker targets the persons stay and the frame itself is published; a raising join changes nothing |
| Recognition.Recognizer.ResolveTrack | recognizer.py:220-239 | the inner loop for one track writes the caption of the first acceptable unclaimed detection, deletes that detection from both arrays, and leaves exactly the map and pool of the specified step |
| Recognition.Recognizer.RecognizePass | recognizer.py:210-242 | the nested loops leave exactly the caption map of the specified pass, and the loop sleeps iff there are no tracked boxes |
| Recognition.Recognizer.Start | recognizer.py:325-326 | the recognizer runs |
| Recognition.Recognizer.Stop | recognizer.py:332-338 | afterwards it is not running, and the threads are joined iff it was running, so a second stop does nothing |
| MarkedPersons.RemoveFirst | desktop/view/widget/marked_persons_widget.py:46-62 | the rows with the first one that shows the name taken out, the scan stopping at that row |
| MarkedPersons.RemoveFirstMultiset | desktop/view/widget/marked_persons_widget.py:46-62 | removing a name's first row takes exactly one copy of the name out of the rows, or none if it has no row |
| MarkedPersons.RemoveFirstAt | desktop/view/widget/marked_persons_widget.py:46-62 | when row `k` is the first showing the name, exactly row `k` goes and the other rows keep their order |
| MarkedPersons.RemoveFirstAbsent | desktop/view/widget/marked_persons_widget.py:46-62 | a name with no row leaves the rows as they are |
| MarkedPersons.RemoveFirstDistinct | desktop/view/widget/marked_persons_widget.py:44-62 | with distinct rows, removal takes the name out altogether and keeps the rows distinct |
| MarkedPersons.MarkedPersonsWidget.Contains | desktop/view/widget/marked_persons_widget.py:64-65 | `name in widget` is membership among the dictionary's keys, whatever the rows show |
| MarkedPersons.MarkedPersonsWidget.constructor | desktop/view/widget/marked_persons_widget.py:6-15 | nobody is marked |
| MarkedPersons.MarkedPersonsWidget.AddPerson | desktop/view/widget/marked_persons_widget.py:17-36 | the person is filed under its name, replacing any entry, and one row is appended; `name in widget` then holds |
| MarkedPersons.MarkedPersonsWidget.RemovePerson | desktop/view/widget/marked_persons_widget.py:38-62 | the key is dropped if present, with no error if absent, and the first row showing the name is removed; other keys and rows stay, in order |
| MarkedPersons.MarkedPersonsWidget.UpdatePerson | desktop/view/widget/marked_persons_widget.py:67-71 | a marked name's entry is replaced without a new row; any other person is added |
| ZoneEditor.NearCorner | desktop/view/widget/rectangles_list_label.py:79-86 | the corners of the zone in the order top-left, top-right, bottom-left, bottom-right, paired with their direction names; the answer is the first pair within the margin on both axes, or none |
| ZoneEditor.NearCornerIsFirst | desktop/view/widget/rectangles_list_label.py:79-86 | the answer is the first corner, in the order top-left, top-right, bottom-left, bottom-right, within 10 px on both axes, with its direction; there is no answer iff no corner is that close; the old window's `is_near_corner` and `get_rect_corners` in ui/mainwindow.py are the same test |
| ZoneEditor.IsPosNearCorner | desktop/view/widget/rectangles_list_label.py:79-86 | the loop over corners and directions computes the corner test |
| ZoneEditor.FirstZoneNearCorner | desktop/view/widget/rectangles_list_label.py:41-46 | the chosen zone has a near corner |
| ZoneEditor.FirstZoneIsFirst | desktop/view/widget/rectangles_list_label.py:41-46 | a press resizes the first zone, in list order, with a near corner, by that corner, and none iff no zone has one |
| ZoneEditor.Resize | desktop/view/widget/rectangles_list_label.py:53-62 | `setTop`/`setBottom` take the mouse y and `setLeft`/`setRight` the mouse x for each edge the direction names; the other edges and the zone's colour and type stay |
| ZoneEditor.ResizeDragsCorner | desktop/view/widget/rectangles_list_label.py:53-62 | a resize moves only the edges the direction names: the dragged corner lands on the mouse and the opposite corner stays |
| ZoneEditor.DrawnZoneSpansDrag | desktop/view/widget/rectangles_list_label.py:71-74 | a drawn zone starts at the press point and ends one pixel before the release point |
| ZoneEditor.RectanglesLabelList.constructor | desktop/view/widget/rectangles_list_label.py:8-16 | there are no zones, and nothing is being drawn or resized |
| ZoneEditor.RectanglesLabelList.GetRectangles | desktop/view/widget/rectangles_list_label.py:18-19 | the zones the editor holds |
| ZoneEditor.RectanglesLabelList.GetStartEndPoints | desktop/view/widget/rectangles_list_label.py:24-25 | the start and end points of the drag, each possibly None |
| ZoneEditor.RectanglesLabelList.SetRectangles | desktop/view/widget/rectangles_list_label.py:21-22 | the zones read back are the ones set |
| ZoneEditor.RectanglesLabelList.PopLastRect | desktop/view/widget/rectangles_list_label.py:27-29 | exactly the last zone goes, and an empty list stays empty |
| ZoneEditor.RectanglesLabelList.KeyPress | desktop/view/widget/rectangles_list_label.py:31-34 | Ctrl+Z with no other modifier pops the last zone, and any other key changes nothing |
| ZoneEditor.RectanglesLabelList.MousePress | desktop/view/widget/rectangles_list_label.py:36-48 | a left press on the label resizes the first zone with a near corner, leaving the points as they are, or else starts drawing at the position and clears the end point; any other press changes nothing; the zones never change |
| ZoneEditor.RectanglesLabelList.MouseMove | desktop/view/widget/rectangles_list_label.py:50-64 | while resizing, only the chosen zone changes, by its named edges; while drawing, only the end point moves; a stale resize index raises and changes nothing |
| ZoneEditor.RectanglesLabelList.MouseRelease | desktop/view/widget/rectangles_list_label.py:66-76 | a resize ends with the zones as they are, or a left release with both points appends exactly one zone `(start, end - start)` and clears both points; otherwise nothing changes |
| DesktopWindow.MarkStep | desktop/mainwindow.py:143-156 | a person without a score changes nothing; a marked name has its entry replaced with no new row; an unmarked known person whose centre is in a zone is filed and gets one row; anyone else changes nothing |
| DesktopWindow.MarkAll | desktop/mainwindow.py:143 | the recognised persons are marked one after the other, in list order |
| DesktopWindow.MarkStepConsistent | desktop/mainwindow.py:143-156 | one person's marking keeps every marked name with exactly one row |
| DesktopWindow.MarkAllConsistent | desktop/mainwindow.py:143-156 | marking a whole list keeps that, so a name is added at most once, within a call and across calls |
| DesktopWindow.MarkStepKeys | desktop/mainwindow.py:143-156 | one person adds its name to the marked names iff it has a score, is known and has its centre in a zone |
| DesktopWindow.MarkAllKeys | desktop/mainwindow.py:143-156 | after marking, a name is marked iff it was marked before or some person of that name qualifies: a score, not unknown, its centre `(x + w//2, y + h//2)` in a zone |
| DesktopWindow.MarkAllKeepsRows | desktop/mainwindow.py:149-156 | marking only appends rows, and earlier rows stay in order |
| DesktopWindow.ScaleZone | desktop/mainwindow.py:115-118 | a zone becomes `MyRect(int(x * xr), int(y * yr), int(w * xr), int(h) * yr)`, or None when the Qt binding refuses the untruncated height |
| DesktopWindow.Trunc | desktop/mainwindow.py:115-117 | `int()` of a float truncates toward zero: the result is within 1 of the value, on the same side of 0 |
| DesktopWindow.ScaleAll | desktop/mainwindow.py:110-119 | all zones are rescaled, in order and in number, or the rescaling fails iff some zone's height argument is refused |
| DesktopWindow.SameSizeKeepsZones | desktop/mainwindow.py:110-119 | zones loaded onto a frame of the saved size keep their positions and sizes |
| DesktopWindow.RescaleZones | desktop/mainwindow.py:113-118 | the rescaling loop computes the specified list, or stops at the first refused argument |
| DesktopWindow.CameraOutcome | desktop/mainwindow.py:71-83 | the first cancelled answer leaves the source as it is, the first accepted answer that `int()` reads switches to that index, any other accepted answer asks again, and with no answers left the dialog is still asking |
| DesktopWindow.AllRetriedCons | desktop/mainwindow.py:72-79 | the answers before the last are all non-numeric texts iff the first is and so are the rest |
| DesktopWindow.CameraSwitchIff | desktop/mainwindow.py:71-83 | the dialog switches to camera `n` iff some answer parses as `n` and every earlier answer was accepted text that is not a number |
| DesktopWindow.CameraUnchangedIff | desktop/mainwindow.py:71-83 | the source stays iff the dialog is cancelled after answers that were all accepted non-numeric texts |
| DesktopWindow.TypedIndexSwitches | desktop/mainwindow.py:75-81 | typing the decimal form of a number of at most 4300 digits switches to that camera at once |
| DesktopWindow.LongIndexAsksAgain | desktop/mainwindow.py:75-79 | a typed index of more than 4300 digits makes `int()` raise, and the dialog asks again as if that answer had not been given |
| DesktopWindow.GetCameraByIndex | desktop/mainwindow.py:71-83 | the retry loop ends with the specified outcome; every answer before the deciding one was retried; it is still asking iff every answer was retried |
| DesktopWindow.MainWindow.constructor | desktop/mainwindow.py:22-55 | the HUD is hidden, the recognizer started, there are no zones and nobody is marked |
| DesktopWindow.MainWindow.ToggleHud | desktop/mainwindow.py:121-125 | a bool sets the HUD's visibility, and no bool flips it |
| DesktopWindow.MainWindow.ProcessRecognitions | desktop/mainwindow.py:142-156 | the marked persons become the marking of the recognised persons: those without a score are skipped; a marked name is only updated; any other name is added once when the person qualifies; consistency is kept |
| DesktopWindow.BoxPen | desktop/mainwindow.py:178-191 | red for an unknown person whatever else holds, else purple for a marked name, else blue when the centre `(x + w//2, y + h//2)` is in some zone, else green |
| DesktopWindow.MainWindow.PaintPens | desktop/mainwindow.py:178-191 | the pen is red if unknown, whatever else holds; otherwise purple if marked; otherwise blue if the centre is in a zone; otherwise green |
| DesktopWindow.MainWindow.LoadSave | desktop/mainwindow.py:98-119 | the editor receives the saved zones rescaled. x and width are scaled by frame width / saved width and y by frame height / saved height, each truncated; the height is `int(h) * y_ratio` untruncated. A zero saved size raises, and a raised error leaves the zones unchanged |
| LegacyWindow.MousePosition | ui/mainwindow.py:162-164 | the label-relative position plus the label's position gives the event position back |
| LegacyWindow.MainWindow.constructor | ui/mainwindow.py:15-53 | the HUD is shown, the recognizer started, and there are no zones and no drawing or resizing |
| LegacyWindow.MainWindow.ToggleHud | ui/mainwindow.py:55-57 | the HUD flag is flipped |
| LegacyWindow.MainWindow.KeyPress | ui/mainwindow.py:115-119 | Ctrl+Z removes the last zone if there is one, and otherwise nothing changes |
| LegacyWindow.MainWindow.MousePress | ui/mainwindow.py:121-132 | the same press step as the zone editor, at the label-relative position |
| LegacyWindow.MainWindow.MouseMove | ui/mainwindow.py:134-148 | the same move step as the zone editor, at the label-relative position |
| LegacyWindow.MainWindow.MouseRelease | ui/mainwindow.py:150-160 | the same release step: exactly one zone is appended, or none |
| LegacyWindow.BoxPen | ui/mainwindow.py:86-93 | blue when the centre `(x + w//2, y + h//2)` is in some zone, else green |
| LegacyWindow.MainWindow.PaintPens | ui/mainwindow.py:86-94 | a box is blue iff its centre `(x + w//2, y + h//2)` lies in some zone, and green otherwise |
| MyRectModel.NewMyRect | ui/myRect.py:8-11 | the zone keeps the given x, y, width and height, is black and has no type |
| MyRectModel.Corners | ui/myRect.py:33-39 | there are exactly four corners: top-left, top-right, bottom-left, bottom-right |
| MyRectModel.CornersOfNew | ui/myRect.py:33-39 | the corners of a new zone are at x/x+w-1 and y/y+h-1 |
| MyRectModel.Render | ui/myRect.py:30-31 | the zone as the text "(x, y, w, h)" with each number in decimal |
| MyRectModel.RenderInjective | ui/myRect.py:30-31 | the "(x, y, w, h)" text determines the zone's position and size |
| MyRectModel.AnyZoneContains | desktop/mainwindow.py:185-188 | the zone-hit loop finds a zone iff some zone contains the point |
| Geometry.RectFromXYWH | ui/myRect.py:8-9 | `QRect(x, y, w, h)` keeps x, y, w and h, with right = x + w - 1 and bottom = y + h - 1 |
| Geometry.Contains | desktop/mainwindow.py:186 | `rect.contains(point)` as Qt documents it: the point lies on or between the edges, a rectangle of negative size being normalised first as Qt does |
| Geometry.Centre | desktop/mainwindow.py:147 | the centre `(x + w//2, y + h//2)` is at half the size, rounded down |
| Geometry.CentreInside | desktop/mainwindow.py:147 | the centre of a box of positive size lies in the box |
| Text.ParseStripped | desktop/mainwindow.py:77 | `int()` of stripped text: an optional sign and decimal digits of any script, with single underscores between digits and at most 4300 digits, read in base 10; a result means the text held a digit |
| Text.ParseInt | desktop/mainwindow.py:76-79 | `int(text)`: ASCII \t-\r and spaces, and the Unicode spaces U+0085, U+00A0 and the like, are stripped from both ends; then an optional sign and decimal digits of any script, with single underscores between digits and at most 4300 digits; anything else is the ValueError that makes the dialog ask again; a result means the text held a digit |
| Text.NoBreakSpaceStripped | desktop/mainwindow.py:77 | a no-break space before the digit 5 is stripped, and the text reads as 5 |
| Text.FullwidthDigit | desktop/mainwindow.py:77 | the fullwidth digit five reads as 5 |
| Text.ParseIntOfIntToString | desktop/mainwindow.py:77 | `int()` reads the decimal form of a number of at most 4300 digits back as that number |
| Text.LongDecimalRaises | desktop/mainwindow.py:77-79 | decimal text of more than 4300 digits raises ValueError |
| Text.FileSeparatorKept | desktop/mainwindow.py:77-79 | `int("\x1c5")` raises: ASCII \x1c-\x1f are not stripped, although `str.isspace()` holds of them |
| Text.SplitTwo | recognizer.py:152 | `(a + ":" + b).split(":")` is `[a, b]` when neither part holds a colon |
| Text.SplitColon | recognizer.py:152 | `split(":")` gives one more piece than there are colons |

## Left out

- Threads: the two loops run as sequential steps on a snapshot. Shared-state races, `join`, `time.sleep(0.05)` and the FPS counter are not modelled (recognizer.py:241-242, 301-330).
- A second `start()` while running would spawn more threads. The model only sets the flag.
- A raised error ends the tracking thread. `TrackingStep` reports it, but the model does not stop later steps.
- Recognition.Recognizer.RecognizePass: the detector's alignment of boxes and landmarks is assumed (`Valid`). The numpy arrays are not modelled, so a misaligned input is excluded rather than raising.
- External models are parameters, because their code is not part of this model: SCRFD detection, BYTETracker, norm_crop, the ArcFace embedding and gallery matcher, and plot_tracking. The detector is taken to hand back, as `img_info["raw_img"]`, the frame it was given, so `TrackingStep` passes that frame on to `ProcessTracking` as the raw image.
- Floating point:
  - boxes and tracker boxes are integers;
  - the IoU and ratios are exact rationals;
  - `:.2f` score formatting is the parameter `fmt`;
  - the score read back from a caption is kept as text.
- DesktopWindow.MainWindow.LoadSave: the ratios are exact, not rounded floats. The Qt binding's handling of a float passed as an int argument (the untruncated height) is the parameter `qtInt`.
- Zone persistence: `save_save`, `change_video_source` and the temporary file are not modelled. desktop/save.py has no load/save methods, so a configuration arrives as the value `Save`.
- Dialogs, painting, QImage/QPixmap, layouts and `deleteLater` are not modelled. Dialog answers arrive as a sequence, and pen choices are returned as values.
- `update_frame` in both windows is not modelled: it is rendering, and the desktop one calls `get_iamge`, which the recognizer does not define. Video sources are cv2 wrappers. desktop_app.py is not part of this model.
- Qt truthiness of QPoint (`if corner:`, `start_point and end_point`) is modelled as None versus not-None. Qt treats a point at (0, 0) as false, and that case is not captured.
- desktop/myRect.py is not part of this model; the zones are modelled by ui/myRect.py's MyRect.
- MyRect.draw is rendering and is not modelled.
- Aliasing: `set_rectangles` stores the caller's list, and a resize mutates the zone object in place. The model uses values, so an alias held elsewhere would not see later changes.
- `set_detection_zones`, `set_video_source`, `get_video_source`, `get_recognized` and `is_hud_visible` are plain field accessors. The model reads the fields directly.
- `is_running` starts as None in the recognizer's constructor; the model starts it as false, which Python treats alike in every test of the flag.
- Text.ParseInt: the digit limit is fixed at Python's default of 4300. `sys.set_int_max_str_digits` and `PYTHONINTMAXSTRDIGITS` can change it at run time, and the model does not follow them.
- Text.IntToString: `str()` of an int with more than 4300 digits also raises in Python; the model renders every int. The rendering serves the typed camera index, where `TypedIndexSwitches` requires the limit, and `MyRectModel.Render` of zone coordinates.
- Text.IsDigit: the digit runs are those of Unicode 15, as in Python 3.12 and 3.13. A Python built on a later Unicode version also accepts the runs added since.
- `load_config` reads YAML. The two thresholds arrive as `TrackingConfig`.
- `Person.__str__` formats floats and is not modelled.
- The string hash behind `Person.__hash__` is a parameter.
- ZoneEditor.RectanglesLabelList.MouseMove: the model reports the IndexError of a stale resize index and the TypeError of a missing direction as `raised`.
