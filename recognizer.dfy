/**
 * recognizer.py: person records, the box overlap score, the tracker-output filter and the
 * track/identity join of the tracking loop, one pass of the identity-resolution loop,
 * and the running/HUD flags of the Recognizer object.
 *
 * The two loops of the program run on threads over shared dictionaries; here each loop
 * body is one sequential step over the state it reads. The detector, the tracker, face
 * alignment and the embedding/gallery matcher are not part of this model: their answers
 * arrive as parameters (the tracker's targets, the detector's boxes and landmarks) or as
 * a function parameter (`Recognition`, which answers `recognition(norm_crop(image, landmark))`).
 */
module Recognition {
  import opened Wrappers
  import opened Geometry
  import opened Text

  /** A box as `[x_min, y_min, x_max, y_max]`. */
  datatype Box = Box(x1: int, y1: int, x2: int, y2: int)

  /** A tracker box `(x, y, w, h)`, in pixels. */
  datatype Tlwh = Tlwh(x: int, y: int, w: int, h: int)

  /** One of the tracker's online targets. */
  datatype Target = Target(trackId: int, tlwh: Tlwh, score: real)

  /** A tracked box paired with its track ID, as the join walks them. */
  datatype Track = Track(id: int, tlwh: Tlwh)

  /** The five facial points the detector reports with each box. */
  type Landmark = seq<Point>

  /** An image: a height x width x channels array of bytes, stored flat. */
  datatype Frame = Frame(height: nat, width: nat, channels: nat, pixels: seq<bv8>)

  /** A person's score: the text after the colon of a caption, or the 0 given to unknowns. */
  datatype Score = ZeroScore | ScoreText(text: string)

  /** `Person`: name, score, tracker box and whether the face is unknown. */
  datatype Person = Person(name: string, score: Option<Score>, tlwh: Tlwh, isUnknown: bool)

  /** `min_box_area` and `aspect_ratio_thresh` of the tracking configuration. */
  datatype TrackingConfig = TrackingConfig(minBoxArea: real, aspectRatioThresh: real)

  /** The face matcher: for an image and a face's landmarks, the best score and the
      gallery name (None when there is no name). */
  type Recognition = (Frame, Landmark) -> (real, Option<string>)

  /** `:.2f` formatting of a score. */
  type ScoreFormat = real -> string

  const UnknownCaption := "UN_KNOWN"

  // ---------------------------------------------------------------------------------
  // Person equality and hashing

  /** `Person.__eq__`: persons are equal when their names are. */
  predicate SamePerson(a: Person, b: Person)
  {
    a.name == b.name
  }

  /** `Person.__hash__`: the hash of the name (the string hash is a parameter). */
  function PersonHash(nameHash: string -> int, p: Person): int
  {
    nameHash(p.name)
  }

  /** Equality ignores score, box and the unknown flag, and is an equivalence. */
  lemma SamePersonIsEquivalence(a: Person, b: Person, c: Person)
    ensures SamePerson(a, a.(score := b.score, tlwh := b.tlwh, isUnknown := b.isUnknown))
    ensures SamePerson(a, b) ==> SamePerson(b, a)
    ensures SamePerson(a, b) && SamePerson(b, c) ==> SamePerson(a, c)
  {
  }

  /** Equal persons hash alike, so a set or dict of persons keeps one per name. */
  lemma EqualPersonsHashAlike(nameHash: string -> int, a: Person, b: Person)
    requires SamePerson(a, b)
    ensures PersonHash(nameHash, a) == PersonHash(nameHash, b)
  {
  }

  // ---------------------------------------------------------------------------------
  // mapping_bbox: intersection over union with inclusive pixel edges

  function Max(a: int, b: int): int { if a < b then b else a }

  function Min(a: int, b: int): int { if a < b then a else b }

  function InterWidth(b1: Box, b2: Box): int
  {
    Max(0, Min(b1.x2, b2.x2) - Max(b1.x1, b2.x1) + 1)
  }

  function InterHeight(b1: Box, b2: Box): int
  {
    Max(0, Min(b1.y2, b2.y2) - Max(b1.y1, b2.y1) + 1)
  }

  function Intersection(b1: Box, b2: Box): int
  {
    InterWidth(b1, b2) * InterHeight(b1, b2)
  }

  function Area(b: Box): int
  {
    (b.x2 - b.x1 + 1) * (b.y2 - b.y1 + 1)
  }

  function UnionArea(b1: Box, b2: Box): int
  {
    Area(b1) + Area(b2) - Intersection(b1, b2)
  }

  /** `mapping_bbox(box1, box2)`. The boxes are numpy values, so a zero union does not
      raise: it gives NaN (None here), as the intersection is then zero as well
      (see ZeroUnionMeansNaN). */
  function MappingBbox(b1: Box, b2: Box): Option<real>
  {
    var u := UnionArea(b1, b2);
    if u == 0 then None else Some(Intersection(b1, b2) as real / u as real)
  }

  /** A box whose far edges are not before its near edges. */
  predicate WellFormed(b: Box)
  {
    b.x1 <= b.x2 && b.y1 <= b.y2
  }

  lemma MulMono(a: int, b: int, c: int, d: int)
    requires 0 <= a <= c && 0 <= b <= d
    ensures a * b <= c * d
  {
    assert a * b <= c * b;
    assert c * b <= c * d;
  }

  /** The overlap score does not depend on the order of the boxes. */
  lemma MappingBboxSymmetric(b1: Box, b2: Box)
    ensures MappingBbox(b1, b2) == MappingBbox(b2, b1)
  {
    assert Intersection(b1, b2) == Intersection(b2, b1);
  }

  /** A well-formed box overlaps itself exactly: the score is 1. */
  lemma MappingBboxSelf(b: Box)
    requires WellFormed(b)
    ensures MappingBbox(b, b) == Some(1.0)
  {
    var a := Area(b);
    assert Intersection(b, b) == a;
    MulMono(1, 1, b.x2 - b.x1 + 1, b.y2 - b.y1 + 1);
    assert UnionArea(b, b) == a > 0;
    assert (a as real) / (a as real) == 1.0;
  }

  /** A positive intersection lies inside both boxes. */
  lemma IntersectionBounded(b1: Box, b2: Box)
    requires Intersection(b1, b2) > 0
    ensures 0 < Intersection(b1, b2) <= Area(b1)
    ensures Intersection(b1, b2) <= Area(b2)
  {
    var w, h := InterWidth(b1, b2), InterHeight(b1, b2);
    if w <= 0 || h <= 0 {
      assert false;
    }
    MulMono(w, h, b1.x2 - b1.x1 + 1, b1.y2 - b1.y1 + 1);
    MulMono(w, h, b2.x2 - b2.x1 + 1, b2.y2 - b2.y1 + 1);
  }

  lemma IntersectionNonNegative(b1: Box, b2: Box)
    ensures Intersection(b1, b2) >= 0
  {
    MulMono(0, 0, InterWidth(b1, b2), InterHeight(b1, b2));
  }

  /** A zero union means a zero intersection, so numpy's division gives NaN, never an
      infinity; NaN fails the `> 0.9` test. */
  lemma ZeroUnionMeansNaN(b1: Box, b2: Box)
    requires UnionArea(b1, b2) == 0
    ensures Intersection(b1, b2) == 0 && MappingBbox(b1, b2) == None
  {
    IntersectionNonNegative(b1, b2);
    if Intersection(b1, b2) > 0 {
      IntersectionBounded(b1, b2);
      assert false;
    }
  }

  /** Boxes that leave a gap of at least one pixel between them on either axis do not
      overlap; for well-formed boxes the score is then 0. */
  lemma MappingBboxSeparated(b1: Box, b2: Box)
    requires b1.x2 < b2.x1 || b2.x2 < b1.x1 || b1.y2 < b2.y1 || b2.y2 < b1.y1
    ensures Intersection(b1, b2) == 0
    ensures WellFormed(b1) && WellFormed(b2) ==> MappingBbox(b1, b2) == Some(0.0)
  {
    assert InterWidth(b1, b2) == 0 || InterHeight(b1, b2) == 0;
    if WellFormed(b1) {
      MulMono(1, 1, b1.x2 - b1.x1 + 1, b1.y2 - b1.y1 + 1);
    }
    if WellFormed(b2) {
      MulMono(1, 1, b2.x2 - b2.x1 + 1, b2.y2 - b2.y1 + 1);
    }
  }

  lemma RatioAtMostOne(i: int, u: int)
    requires 0 <= i <= u && 0 < u
    ensures 0.0 <= (i as real) / (u as real) <= 1.0
  {
  }

  /** For well-formed boxes the score is a number between 0 and 1. */
  lemma MappingBboxRange(b1: Box, b2: Box)
    requires WellFormed(b1) && WellFormed(b2)
    ensures MappingBbox(b1, b2).Some?
    ensures 0.0 <= MappingBbox(b1, b2).value <= 1.0
  {
    var i, a1, a2 := Intersection(b1, b2), Area(b1), Area(b2);
    IntersectionNonNegative(b1, b2);
    MulMono(1, 1, b1.x2 - b1.x1 + 1, b1.y2 - b1.y1 + 1);
    MulMono(1, 1, b2.x2 - b2.x1 + 1, b2.y2 - b2.y1 + 1);
    if i > 0 {
      IntersectionBounded(b1, b2);
    }
    assert 0 <= i <= a1 + a2 - i && a1 + a2 - i > 0;
    RatioAtMostOne(i, a1 + a2 - i);
  }

  // ---------------------------------------------------------------------------------
  // The tracker-output filter of process_tracking

  /** `tlwh[2] / tlwh[3] > aspect_ratio_thresh` on numpy floats: a zero height gives
      +inf when the width is positive (above any threshold), -inf or NaN otherwise. */
  predicate Vertical(t: Tlwh, thresh: real)
  {
    if t.h != 0 then (t.w as real) / (t.h as real) > thresh else t.w > 0
  }

  /** A target survives the filter: area above the minimum and not too vertical. */
  predicate Kept(t: Target, cfg: TrackingConfig)
  {
    ((t.tlwh.w * t.tlwh.h) as real) > cfg.minBoxArea && !Vertical(t.tlwh, cfg.aspectRatioThresh)
  }

  /** The targets that survive the filter, in tracker order. */
  function KeptTargets(ts: seq<Target>, cfg: TrackingConfig): seq<Target>
  {
    if |ts| == 0 then []
    else KeptTargets(ts[..|ts| - 1], cfg) + (if Kept(ts[|ts| - 1], cfg) then [ts[|ts| - 1]] else [])
  }

  /** `[x1, y1, x1 + w, y1 + h]`. */
  function TrackBox(t: Tlwh): Box
  {
    Box(t.x, t.y, t.x + t.w, t.y + t.h)
  }

  /** A target is kept if and only if it is one of the input targets and passes the test. */
  lemma {:induction false} KeptTargetsMembership(ts: seq<Target>, cfg: TrackingConfig, t: Target)
    ensures t in KeptTargets(ts, cfg) <==> t in ts && Kept(t, cfg)
  {
    if |ts| > 0 {
      KeptTargetsMembership(ts[..|ts| - 1], cfg, t);
      assert ts == ts[..|ts| - 1] + [ts[|ts| - 1]];
    }
  }

  /** Filtering distributes over concatenation: kept targets keep the tracker's order. */
  lemma {:induction false} KeptTargetsConcat(a: seq<Target>, b: seq<Target>, cfg: TrackingConfig)
    ensures KeptTargets(a + b, cfg) == KeptTargets(a, cfg) + KeptTargets(b, cfg)
  {
    if |b| == 0 {
      assert a + b == a;
    } else {
      KeptTargetsConcat(a, b[..|b| - 1], cfg);
      assert (a + b)[..|a + b| - 1] == a + b[..|b| - 1];
    }
  }

  /** The loop of process_tracking that builds the four index-aligned lists of the kept
      targets: boxes, IDs, scores and `[x, y, x + w, y + h]` boxes. */
  method FilterTargets(targets: seq<Target>, cfg: TrackingConfig)
    returns (tlwhs: seq<Tlwh>, ids: seq<int>, scores: seq<real>, bboxes: seq<Box>)
    ensures var kept := KeptTargets(targets, cfg);
      |tlwhs| == |kept| && |ids| == |kept| && |scores| == |kept| && |bboxes| == |kept| &&
      forall k | 0 <= k < |kept| ::
        tlwhs[k] == kept[k].tlwh && ids[k] == kept[k].trackId &&
        scores[k] == kept[k].score && bboxes[k] == TrackBox(kept[k].tlwh)
  {
    tlwhs, ids, scores, bboxes := [], [], [], [];
    for i := 0 to |targets|
      invariant var kept := KeptTargets(targets[..i], cfg);
        |tlwhs| == |kept| && |ids| == |kept| && |scores| == |kept| && |bboxes| == |kept| &&
        forall k | 0 <= k < |kept| ::
          tlwhs[k] == kept[k].tlwh && ids[k] == kept[k].trackId &&
          scores[k] == kept[k].score && bboxes[k] == TrackBox(kept[k].tlwh)
    {
      assert targets[..i + 1][..i] == targets[..i];
      var t := targets[i];
      if Kept(t, cfg) {
        var (x1, y1, w, h) := (t.tlwh.x, t.tlwh.y, t.tlwh.w, t.tlwh.h);
        bboxes := bboxes + [Box(x1, y1, x1 + w, y1 + h)];
        tlwhs := tlwhs + [t.tlwh];
        ids := ids + [t.trackId];
        scores := scores + [t.score];
      }
    }
    assert targets[..|targets|] == targets;
  }

  // ---------------------------------------------------------------------------------
  // Captions and the join that builds recognized_persons

  /** The caption the resolution loop writes for a match: unknown below 0.25, otherwise
      "name:score". */
  function Caption(score: real, name: string, fmt: ScoreFormat): string
  {
    if score < 0.25 then UnknownCaption else name + ":" + fmt(score)
  }

  /** A caption reads "UN_KNOWN" exactly when the score is below 0.25. */
  lemma CaptionUnknownIff(score: real, name: string, fmt: ScoreFormat)
    ensures Caption(score, name, fmt) == UnknownCaption <==> score < 0.25
  {
    if score >= 0.25 {
      var c := name + ":" + fmt(score);
      assert c[|name|] == ':';
      assert ':' in c;
      assert ':' !in UnknownCaption;
    }
  }

  /** Why a join fails: `Person(*caption.split(":"))` raises unless the caption has
      exactly one colon. */
  datatype JoinError = MalformedCaption(caption: string)

  /** The person the join builds from a caption and a tracker box. */
  function PersonFromCaption(caption: string, tlwh: Tlwh): Result<Person, JoinError>
  {
    if caption != UnknownCaption then
      var parts := SplitColon(caption);
      if |parts| == 2 then Ok(Person(parts[0], Some(ScoreText(parts[1])), tlwh, false))
      else Err(MalformedCaption(caption))
    else Ok(Person(UnknownCaption, Some(ZeroScore), tlwh, true))
  }

  /** A low score reaches the person list as an unknown person with score 0. */
  lemma UnknownCaptionRoundTrip(score: real, name: string, fmt: ScoreFormat, tlwh: Tlwh)
    requires score < 0.25
    ensures PersonFromCaption(Caption(score, name, fmt), tlwh) ==
      Ok(Person(UnknownCaption, Some(ZeroScore), tlwh, true))
  {
  }

  /** A named match reaches the person list with its name and formatted score, when
      neither the gallery name nor the formatted score holds a colon. */
  lemma NamedCaptionRoundTrip(score: real, name: string, fmt: ScoreFormat, tlwh: Tlwh)
    requires score >= 0.25 && ':' !in name && ':' !in fmt(score)
    ensures PersonFromCaption(Caption(score, name, fmt), tlwh) ==
      Ok(Person(name, Some(ScoreText(fmt(score))), tlwh, false))
  {
    CaptionUnknownIff(score, name, fmt);
    SplitTwo(name, fmt(score));
  }

  /** `if name_score := self.id_face_mapping.get(obj_id)`: an entry that is not empty. */
  predicate HasCaption(m: map<int, string>, id: int)
  {
    id in m && m[id] != ""
  }

  /** `zip(tracking_ids, tracking_tlwhs)`. */
  function Zip(ids: seq<int>, tlwhs: seq<Tlwh>): (ts: seq<Track>)
    ensures |ts| == Min(|ids|, |tlwhs|)
    ensures forall k | 0 <= k < |ts| :: ts[k] == Track(ids[k], tlwhs[k])
  {
    if |ids| == 0 || |tlwhs| == 0 then [] else [Track(ids[0], tlwhs[0])] + Zip(ids[1..], tlwhs[1..])
  }

  /** The tracks that have a caption, in order. */
  function Mapped(tracks: seq<Track>, m: map<int, string>): (r: seq<Track>)
    ensures forall k | 0 <= k < |r| :: HasCaption(m, r[k].id)
  {
    if |tracks| == 0 then []
    else
      var t := tracks[|tracks| - 1];
      Mapped(tracks[..|tracks| - 1], m) + (if HasCaption(m, t.id) then [t] else [])
  }

  /** The person list of one tracking step, or the first caption that makes it raise. */
  function JoinSpec(tracks: seq<Track>, m: map<int, string>): Result<seq<Person>, JoinError>
  {
    if |tracks| == 0 then Ok([])
    else
      var t := tracks[|tracks| - 1];
      match JoinSpec(tracks[..|tracks| - 1], m)
      case Err(e) => Err(e)
      case Ok(ps) =>
        if !HasCaption(m, t.id) then Ok(ps)
        else (
          match PersonFromCaption(m[t.id], t.tlwh)
          case Err(e) => Err(e)
          case Ok(p) => Ok(ps + [p]))
  }

  /** The join succeeds exactly when every captioned track's caption is well formed, and
      then lists one person per captioned track, in track order, with that track's box;
      tracks without a caption are left out. */
  lemma {:induction false} JoinSpecShape(tracks: seq<Track>, m: map<int, string>)
    ensures var mapped := Mapped(tracks, m);
      JoinSpec(tracks, m).Ok? <==>
        forall k | 0 <= k < |mapped| :: PersonFromCaption(m[mapped[k].id], mapped[k].tlwh).Ok?
    ensures var mapped := Mapped(tracks, m);
      JoinSpec(tracks, m).Ok? ==>
        var ps := JoinSpec(tracks, m).value;
        |ps| == |mapped| &&
        forall k | 0 <= k < |mapped| ::
          PersonFromCaption(m[mapped[k].id], mapped[k].tlwh) == Ok(ps[k]) && ps[k].tlwh == mapped[k].tlwh
  {
    if |tracks| > 0 {
      var init, t := tracks[..|tracks| - 1], tracks[|tracks| - 1];
      JoinSpecShape(init, m);
      var mi := Mapped(init, m);
      if HasCaption(m, t.id) {
        var mapped := mi + [t];
        assert Mapped(tracks, m) == mapped;
        if JoinSpec(init, m).Err? {
          var k :| 0 <= k < |mi| && !PersonFromCaption(m[mi[k].id], mi[k].tlwh).Ok?;
          assert mapped[k] == mi[k];
        } else {
          var ps := JoinSpec(init, m).value;
          match PersonFromCaption(m[t.id], t.tlwh)
          case Err(e) =>
            assert mapped[|mi|] == t;
          case Ok(p) =>
            assert JoinSpec(tracks, m) == Ok(ps + [p]);
            assert p.tlwh == t.tlwh;
        }
      } else {
        assert Mapped(tracks, m) == mi;
      }
    }
  }

  /** The join lists only tracks of the current step that have a caption: every track of
      Mapped is one of the input tracks. */
  lemma {:induction false} MappedSubset(tracks: seq<Track>, m: map<int, string>, t: Track)
    ensures t in Mapped(tracks, m) <==> t in tracks && HasCaption(m, t.id)
  {
    if |tracks| > 0 {
      MappedSubset(tracks[..|tracks| - 1], m, t);
      assert tracks == tracks[..|tracks| - 1] + [tracks[|tracks| - 1]];
    }
  }

  /** Once a prefix of the tracks makes the join raise, the whole join raises the same way. */
  lemma {:induction false} JoinSpecErrPersists(tracks: seq<Track>, n: nat, m: map<int, string>)
    requires n <= |tracks| && JoinSpec(tracks[..n], m).Err?
    ensures JoinSpec(tracks, m) == JoinSpec(tracks[..n], m)
    decreases |tracks| - n
  {
    if n == |tracks| {
      assert tracks[..n] == tracks;
    } else {
      var init := tracks[..|tracks| - 1];
      assert init[..n] == tracks[..n];
      JoinSpecErrPersists(init, n, m);
    }
  }

  /** The loop of process_tracking that builds recognized_persons. */
  method BuildRecognized(ids: seq<int>, tlwhs: seq<Tlwh>, m: map<int, string>)
    returns (r: Result<seq<Person>, JoinError>)
    ensures r == JoinSpec(Zip(ids, tlwhs), m)
  {
    var tracks := Zip(ids, tlwhs);
    var recs: seq<Person> := [];
    for i := 0 to |tracks|
      invariant JoinSpec(tracks[..i], m) == Ok(recs)
    {
      assert tracks[..i + 1][..i] == tracks[..i];
      var objId, tlwh := ids[i], tlwhs[i];
      if HasCaption(m, objId) {
        var nameScore := m[objId];
        var person;
        if nameScore != UnknownCaption {
          var parts := SplitColon(nameScore);
          if |parts| != 2 {
            assert JoinSpec(tracks[..i + 1], m) == Err(MalformedCaption(nameScore));
            JoinSpecErrPersists(tracks, i + 1, m);
            return Err(MalformedCaption(nameScore));
          }
          person := Person(parts[0], Some(ScoreText(parts[1])), tlwh, false);
        } else {
          person := Person(UnknownCaption, Some(ZeroScore), tlwh, true);
        }
        recs := recs + [person];
      }
    }
    assert tracks[..|tracks|] == tracks;
    return Ok(recs);
  }

  // ---------------------------------------------------------------------------------
  // One pass of the identity-resolution loop (`recognize`)

  /** What the tracking step publishes for the resolution loop to read. */
  datatype Snapshot = Snapshot(
    rawImage: Frame,
    trackingIds: seq<int>,
    detectionBboxes: seq<Box>,
    detectionLandmarks: seq<Landmark>,
    trackingBboxes: seq<Box>)

  /** IDs match tracked boxes, and landmarks match detected boxes, index by index. */
  predicate Aligned(s: Snapshot)
  {
    |s.trackingIds| == |s.trackingBboxes| && |s.detectionBboxes| == |s.detectionLandmarks|
  }

  /** Detection `k` is taken for track `i`: overlap above 0.9 and a name from the matcher. */
  predicate Acceptable(s: Snapshot, recog: Recognition, i: nat, k: nat)
    requires Aligned(s) && i < |s.trackingBboxes| && k < |s.detectionBboxes|
  {
    var iou := MappingBbox(s.trackingBboxes[i], s.detectionBboxes[k]);
    iou.Some? && iou.value > 0.9 && recog(s.rawImage, s.detectionLandmarks[k]).1.Some?
  }

  predicate InRange(s: Snapshot, pool: seq<nat>)
  {
    forall p | 0 <= p < |pool| :: pool[p] < |s.detectionBboxes|
  }

  /** Scan of the remaining detections from position `from`: the first acceptable one. */
  function FirstClaim(s: Snapshot, recog: Recognition, i: nat, pool: seq<nat>, from: nat): (r: Option<nat>)
    requires Aligned(s) && i < |s.trackingBboxes| && InRange(s, pool)
    ensures r.Some? ==> from <= r.value < |pool| && Acceptable(s, recog, i, pool[r.value])
    decreases |pool| - from
  {
    if from >= |pool| then None
    else if Acceptable(s, recog, i, pool[from]) then Some(from)
    else FirstClaim(s, recog, i, pool, from + 1)
  }

  /** The scan finds the first acceptable remaining detection, and finds none exactly
      when no remaining detection is acceptable. */
  lemma {:induction false} FirstClaimIsFirst(s: Snapshot, recog: Recognition, i: nat, pool: seq<nat>, from: nat)
    requires Aligned(s) && i < |s.trackingBboxes| && InRange(s, pool)
    ensures var r := FirstClaim(s, recog, i, pool, from);
      (r.None? <==> forall p | from <= p < |pool| :: !Acceptable(s, recog, i, pool[p])) &&
      (r.Some? ==> forall p | from <= p < r.value :: !Acceptable(s, recog, i, pool[p]))
    decreases |pool| - from
  {
    if from < |pool| && !Acceptable(s, recog, i, pool[from]) {
      FirstClaimIsFirst(s, recog, i, pool, from + 1);
    }
  }

  /** The resolution state after some tracks: the caption map, the original indices of
      the detections not yet claimed (in their current order), and per track the
      detection it claimed. */
  datatype PassState = PassState(mapping: map<int, string>, pool: seq<nat>, claims: seq<Option<nat>>)

  function Range(n: nat): (r: seq<nat>)
    ensures |r| == n && forall p | 0 <= p < n :: r[p] == p
  {
    if n == 0 then [] else Range(n - 1) + [n - 1]
  }

  /** The caption written when track `i` claims detection `k`. */
  function ClaimCaption(s: Snapshot, recog: Recognition, fmt: ScoreFormat, k: nat): string
    requires Aligned(s) && k < |s.detectionBboxes|
    requires recog(s.rawImage, s.detectionLandmarks[k]).1.Some?
  {
    var (score, name) := recog(s.rawImage, s.detectionLandmarks[k]);
    Caption(score, name.value, fmt)
  }

  /** The inner loop for track `i`: claim the first acceptable detection, write its
      caption under the track's ID and delete it from the pool. */
  function StepTrack(s: Snapshot, recog: Recognition, fmt: ScoreFormat, st: PassState, i: nat): (r: PassState)
    requires Aligned(s) && i < |s.trackingBboxes| && InRange(s, st.pool)
    ensures InRange(s, r.pool)
    ensures |r.claims| == |st.claims| + 1 && r.claims[..|st.claims|] == st.claims
  {
    match FirstClaim(s, recog, i, st.pool, 0)
    case None => st.(claims := st.claims + [None])
    case Some(p) =>
      var k := st.pool[p];
      PassState(st.mapping[s.trackingIds[i] := ClaimCaption(s, recog, fmt, k)],
                st.pool[..p] + st.pool[p + 1..],
                st.claims + [Some(k)])
  }

  /** The state after the first `n` tracks, in tracking-list order. */
  function PassUpTo(s: Snapshot, recog: Recognition, fmt: ScoreFormat, m0: map<int, string>, n: nat): (r: PassState)
    requires Aligned(s) && n <= |s.trackingBboxes|
    ensures InRange(s, r.pool) && |r.claims| == n
  {
    if n == 0 then PassState(m0, Range(|s.detectionBboxes|), [])
    else StepTrack(s, recog, fmt, PassUpTo(s, recog, fmt, m0, n - 1), n - 1)
  }

  predicate Distinct(xs: seq<nat>)
  {
    forall a, b | 0 <= a < b < |xs| :: xs[a] != xs[b]
  }

  /** No detection is claimed by two tracks. */
  predicate ClaimedOnce(claims: seq<Option<nat>>)
  {
    forall a, b | 0 <= a < b < |claims| && claims[a].Some? && claims[b].Some? :: claims[a].value != claims[b].value
  }

  /** Every detection is either still in the pool or claimed, never both, and each is
      claimed at most once. */
  predicate PassConsistent(d: nat, st: PassState)
  {
    Distinct(st.pool) &&
    (forall a | 0 <= a < |st.claims| && st.claims[a].Some? :: st.claims[a].value < d && st.claims[a].value !in st.pool) &&
    (forall k: nat | k < d :: k in st.pool || Some(k) in st.claims) &&
    ClaimedOnce(st.claims)
  }

  lemma RemoveAt(xs: seq<nat>, p: nat)
    requires Distinct(xs) && p < |xs|
    ensures var r := xs[..p] + xs[p + 1..];
      Distinct(r) && |r| == |xs| - 1 && xs[p] !in r &&
      forall x :: x in r <==> x in xs && x != xs[p]
  {
    var r := xs[..p] + xs[p + 1..];
    forall a, b | 0 <= a < b < |r| ensures r[a] != r[b] {
      var a', b' := if a < p then a else a + 1, if b < p then b else b + 1;
      assert r[a] == xs[a'] && r[b] == xs[b'];
    }
    forall x ensures x in r <==> x in xs && x != xs[p] {
      if x in r {
        var q :| 0 <= q < |r| && r[q] == x;
        assert x == xs[if q < p then q else q + 1];
      }
      if x in xs && x != xs[p] {
        var q :| 0 <= q < |xs| && xs[q] == x;
        assert q != p;
        assert r[if q < p then q else q - 1] == x;
      }
    }
  }

  /** One track's step keeps the pass consistent. */
  lemma StepConsistent(s: Snapshot, recog: Recognition, fmt: ScoreFormat, st: PassState, i: nat)
    requires Aligned(s) && i < |s.trackingBboxes| && InRange(s, st.pool)
    requires PassConsistent(|s.detectionBboxes|, st)
    ensures PassConsistent(|s.detectionBboxes|, StepTrack(s, recog, fmt, st, i))
  {
    var d := |s.detectionBboxes|;
    var r := StepTrack(s, recog, fmt, st, i);
    var n := |st.claims|;
    match FirstClaim(s, recog, i, st.pool, 0)
    case None =>
      assert r.pool == st.pool && r.claims == st.claims + [None];
      forall k: nat | k < d && k !in r.pool ensures Some(k) in r.claims {
        var a :| 0 <= a < n && st.claims[a] == Some(k);
        assert r.claims[a] == Some(k);
      }
    case Some(p) =>
      var k := st.pool[p];
      RemoveAt(st.pool, p);
      assert r.pool == st.pool[..p] + st.pool[p + 1..];
      assert r.claims == st.claims + [Some(k)];
      assert k in st.pool;
      forall a | 0 <= a < n && st.claims[a].Some? ensures st.claims[a].value != k {
      }
      forall j: nat | j < d && j !in r.pool ensures Some(j) in r.claims {
        if j == k {
          assert r.claims[n] == Some(k);
        } else {
          var a :| 0 <= a < n && st.claims[a] == Some(j);
          assert r.claims[a] == Some(j);
        }
      }
  }

  /** A pass claims each detection at most once; a claimed detection leaves the pool
      for good, and every detection is either still free or claimed. */
  lemma {:induction false} PassUpToConsistent(s: Snapshot, recog: Recognition, fmt: ScoreFormat, m0: map<int, string>, n: nat)
    requires Aligned(s) && n <= |s.trackingBboxes|
    ensures PassConsistent(|s.detectionBboxes|, PassUpTo(s, recog, fmt, m0, n))
  {
    if n == 0 {
      var st := PassUpTo(s, recog, fmt, m0, 0);
      forall k: nat | k < |s.detectionBboxes| ensures k in st.pool {
        assert st.pool[k] == k;
      }
    } else {
      PassUpToConsistent(s, recog, fmt, m0, n - 1);
      StepConsistent(s, recog, fmt, PassUpTo(s, recog, fmt, m0, n - 1), n - 1);
    }
  }

  /** One track's step writes at most the track's own ID, and only when it claims. */
  lemma StepFrame(s: Snapshot, recog: Recognition, fmt: ScoreFormat, st: PassState, i: nat)
    requires Aligned(s) && i < |s.trackingBboxes| && InRange(s, st.pool)
    ensures var r := StepTrack(s, recog, fmt, st, i);
      (r.claims[|st.claims|].None? ==> r.mapping == st.mapping) &&
      (r.claims[|st.claims|].Some? ==>
         r.mapping.Keys == st.mapping.Keys + {s.trackingIds[i]} &&
         forall key | key in st.mapping && key != s.trackingIds[i] :: r.mapping[key] == st.mapping[key])
  {
  }

  /** A claiming step claims an acceptable detection and writes its caption under the
      track's ID. */
  lemma StepWrites(s: Snapshot, recog: Recognition, fmt: ScoreFormat, st: PassState, i: nat)
    requires Aligned(s) && i < |s.trackingBboxes| && InRange(s, st.pool)
    ensures var r := StepTrack(s, recog, fmt, st, i);
      var c := r.claims[|st.claims|];
      c.Some? ==>
        c.value < |s.detectionBboxes| && Acceptable(s, recog, i, c.value) &&
        s.trackingIds[i] in r.mapping && r.mapping[s.trackingIds[i]] == ClaimCaption(s, recog, fmt, c.value)
  {
  }

  /** The IDs of the tracks that claimed a detection. */
  function ClaimingIds(s: Snapshot, claims: seq<Option<nat>>): set<int>
    requires |claims| <= |s.trackingIds|
  {
    set a | 0 <= a < |claims| && claims[a].Some? :: s.trackingIds[a]
  }

  lemma ClaimingIdsSnoc(s: Snapshot, claims: seq<Option<nat>>, c: Option<nat>)
    requires |claims| < |s.trackingIds|
    ensures ClaimingIds(s, claims + [c]) ==
      ClaimingIds(s, claims) + (if c.Some? then {s.trackingIds[|claims|]} else {})
  {
    var ext := claims + [c];
    assert forall a | 0 <= a < |claims| :: ext[a] == claims[a];
    if c.Some? {
      assert s.trackingIds[|claims|] in ClaimingIds(s, ext);
    }
  }

  /** The `n`-th track appends one decision to the claims of the first `n - 1`. */
  lemma PassStepClaims(s: Snapshot, recog: Recognition, fmt: ScoreFormat, m0: map<int, string>, n: nat)
    requires Aligned(s) && 0 < n <= |s.trackingBboxes|
    ensures var prev, st := PassUpTo(s, recog, fmt, m0, n - 1), PassUpTo(s, recog, fmt, m0, n);
      st.claims == prev.claims + [st.claims[n - 1]]
  {
    var prev, st := PassUpTo(s, recog, fmt, m0, n - 1), PassUpTo(s, recog, fmt, m0, n);
    assert st.claims[..n - 1] == prev.claims;
  }

  /** The `n`-th track adds its own ID to the caption map when it claims, and nothing
      otherwise. */
  lemma PassStepKeys(s: Snapshot, recog: Recognition, fmt: ScoreFormat, m0: map<int, string>, n: nat)
    requires Aligned(s) && 0 < n <= |s.trackingBboxes|
    ensures var prev, st := PassUpTo(s, recog, fmt, m0, n - 1), PassUpTo(s, recog, fmt, m0, n);
      st.mapping.Keys == prev.mapping.Keys + (if st.claims[n - 1].Some? then {s.trackingIds[n - 1]} else {})
  {
    StepFrame(s, recog, fmt, PassUpTo(s, recog, fmt, m0, n - 1), n - 1);
  }

  /** The `n`-th track leaves every entry but its own ID's untouched, and its own too when
      it claims nothing. */
  lemma PassStepKeeps(s: Snapshot, recog: Recognition, fmt: ScoreFormat, m0: map<int, string>, n: nat, key: int)
    requires Aligned(s) && 0 < n <= |s.trackingBboxes|
    ensures var prev, st := PassUpTo(s, recog, fmt, m0, n - 1), PassUpTo(s, recog, fmt, m0, n);
      key in prev.mapping && (st.claims[n - 1].None? || key != s.trackingIds[n - 1]) ==>
        key in st.mapping && st.mapping[key] == prev.mapping[key]
  {
    StepFrame(s, recog, fmt, PassUpTo(s, recog, fmt, m0, n - 1), n - 1);
  }

  /** A pass adds exactly the IDs of the tracks that claimed a detection to the caption
      map, and removes none. */
  lemma {:induction false} PassKeys(s: Snapshot, recog: Recognition, fmt: ScoreFormat, m0: map<int, string>, n: nat)
    requires Aligned(s) && n <= |s.trackingBboxes|
    ensures var st := PassUpTo(s, recog, fmt, m0, n);
      st.mapping.Keys == m0.Keys + ClaimingIds(s, st.claims)
  {
    if n > 0 {
      PassKeys(s, recog, fmt, m0, n - 1);
      PassStepClaims(s, recog, fmt, m0, n);
      PassStepKeys(s, recog, fmt, m0, n);
      var prev, st := PassUpTo(s, recog, fmt, m0, n - 1), PassUpTo(s, recog, fmt, m0, n);
      ClaimingIdsSnoc(s, prev.claims, st.claims[n - 1]);
    }
  }

  /** A pass writes only under the IDs of tracks that claimed a detection: every other
      entry of the caption map is untouched. */
  lemma {:induction false} PassFrame(s: Snapshot, recog: Recognition, fmt: ScoreFormat, m0: map<int, string>, n: nat, key: int)
    requires Aligned(s) && n <= |s.trackingBboxes|
    ensures var st := PassUpTo(s, recog, fmt, m0, n);
      key !in ClaimingIds(s, st.claims) && key in m0 ==> key in st.mapping && st.mapping[key] == m0[key]
  {
    if n > 0 {
      PassFrame(s, recog, fmt, m0, n - 1, key);
      PassStepClaims(s, recog, fmt, m0, n);
      PassStepKeeps(s, recog, fmt, m0, n, key);
      var prev, st := PassUpTo(s, recog, fmt, m0, n - 1), PassUpTo(s, recog, fmt, m0, n);
      ClaimingIdsSnoc(s, prev.claims, st.claims[n - 1]);
    }
  }

  /** Track `i` claimed an acceptable detection and the map holds its caption under the
      track's ID. */
  predicate HoldsClaimCaption(s: Snapshot, recog: Recognition, fmt: ScoreFormat, st: PassState, i: nat)
    requires Aligned(s) && i < |st.claims| && i < |s.trackingBboxes|
  {
    st.claims[i].Some? && st.claims[i].value < |s.detectionBboxes| &&
    Acceptable(s, recog, i, st.claims[i].value) &&
    s.trackingIds[i] in st.mapping &&
    st.mapping[s.trackingIds[i]] == ClaimCaption(s, recog, fmt, st.claims[i].value)
  }

  /** The `n`-th track's claim, when it makes one, is acceptable and writes its caption. */
  lemma PassStepWrites(s: Snapshot, recog: Recognition, fmt: ScoreFormat, m0: map<int, string>, n: nat)
    requires Aligned(s) && 0 < n <= |s.trackingBboxes|
    ensures var st := PassUpTo(s, recog, fmt, m0, n);
      st.claims[n - 1].Some? ==> HoldsClaimCaption(s, recog, fmt, st, n - 1)
  {
    StepWrites(s, recog, fmt, PassUpTo(s, recog, fmt, m0, n - 1), n - 1);
  }

  /** No track after `i` among the first `n` claims a detection under the same ID. */
  predicate LastClaimOfId(s: Snapshot, claims: seq<Option<nat>>, i: nat)
    requires i < |claims| <= |s.trackingIds|
  {
    forall a | i < a < |claims| :: claims[a].Some? ==> s.trackingIds[a] != s.trackingIds[i]
  }

  /** The last track with a given ID that claims a detection decides that ID's caption:
      the claimed detection is acceptable for the track, and the caption written for it
      overwrites whatever the map held for the ID. */
  lemma {:induction false} PassLastWriteWins(s: Snapshot, recog: Recognition, fmt: ScoreFormat, m0: map<int, string>, n: nat, i: nat)
    requires Aligned(s) && i < n <= |s.trackingBboxes|
    ensures var st := PassUpTo(s, recog, fmt, m0, n);
      st.claims[i].Some? && LastClaimOfId(s, st.claims, i) ==> HoldsClaimCaption(s, recog, fmt, st, i)
  {
    var prev, st := PassUpTo(s, recog, fmt, m0, n - 1), PassUpTo(s, recog, fmt, m0, n);
    if n - 1 == i {
      PassStepWrites(s, recog, fmt, m0, n);
    } else {
      PassStepClaims(s, recog, fmt, m0, n);
      PassLastWriteWins(s, recog, fmt, m0, n - 1, i);
      PassStepKeeps(s, recog, fmt, m0, n, s.trackingIds[i]);
      LastWriteCarries(s, recog, fmt, prev, st, n, i);
    }
  }

  /** The step from `prev` to `st` (one more claim decision, and every entry kept but
      the new claimer's) carries the last-write property of claim `i` over. */
  lemma LastWriteCarries(s: Snapshot, recog: Recognition, fmt: ScoreFormat, prev: PassState, st: PassState, n: nat, i: nat)
    requires Aligned(s) && i < n - 1 && 0 < n <= |s.trackingBboxes|
    requires |prev.claims| == n - 1 && |st.claims| == n
    requires st.claims == prev.claims + [st.claims[n - 1]]
    requires prev.claims[i].Some? && LastClaimOfId(s, prev.claims, i) ==> HoldsClaimCaption(s, recog, fmt, prev, i)
    requires s.trackingIds[i] in prev.mapping && (st.claims[n - 1].None? || s.trackingIds[i] != s.trackingIds[n - 1]) ==>
      s.trackingIds[i] in st.mapping && st.mapping[s.trackingIds[i]] == prev.mapping[s.trackingIds[i]]
    ensures st.claims[i].Some? && LastClaimOfId(s, st.claims, i) ==> HoldsClaimCaption(s, recog, fmt, st, i)
  {
    if st.claims[i].Some? && LastClaimOfId(s, st.claims, i) {
      assert st.claims[i] == prev.claims[i];
      assert LastClaimOfId(s, prev.claims, i) by {
        forall a | i < a < |prev.claims| && prev.claims[a].Some?
          ensures s.trackingIds[a] != s.trackingIds[i]
        {
          assert st.claims[a] == prev.claims[a];
        }
      }
      assert st.claims[n - 1].Some? ==> s.trackingIds[n - 1] != s.trackingIds[i];
    }
  }

  // ---------------------------------------------------------------------------------
  // The Recognizer object

  /** The `[]` that stands for the raw image before the first frame. */
  const EmptyFrame := Frame(0, 0, 0, [])

  /** `np.ones((900, 1600, 3), np.uint8) * 255`: a white 1600 x 900 image. */
  function Placeholder(): Frame
  {
    Frame(900, 1600, 3, seq(900 * 1600 * 3, (k: int) => 255 as bv8))
  }

  /** `plot_tracking(image, tlwhs, ids, names=...)`: the HUD drawing, a parameter. */
  type Annotate = (Frame, seq<Tlwh>, seq<int>, map<int, string>) -> Frame

  function IdsOf(kept: seq<Target>): (r: seq<int>)
  {
    seq(|kept|, (k: int) requires 0 <= k < |kept| => kept[k].trackId)
  }

  function TlwhsOf(kept: seq<Target>): (r: seq<Tlwh>)
  {
    seq(|kept|, (k: int) requires 0 <= k < |kept| => kept[k].tlwh)
  }

  function BoxesOf(kept: seq<Target>): (r: seq<Box>)
  {
    seq(|kept|, (k: int) requires 0 <= k < |kept| => TrackBox(kept[k].tlwh))
  }

  /** The tracks process_tracking keeps for a tracker output; none when the detector
      found nothing. */
  function KeptOf(targets: Option<seq<Target>>, cfg: TrackingConfig): seq<Target>
  {
    if targets.Some? then KeptTargets(targets.value, cfg) else []
  }

  /** The frame the tracking loop works on: the source's frame, or the white placeholder
      when there is no source or it gives no frame. */
  function InputFrame(source: Option<Frame>): (f: Frame)
  {
    if source.Some? then source.value else Placeholder()
  }

  /** The detections still free in the pass, as the original indices in `pool` and the
      shrinking box and landmark lists the loop works on. */
  predicate PoolView(s: Snapshot, pool: seq<nat>, dets: seq<Box>, lms: seq<Landmark>)
    requires Aligned(s) && InRange(s, pool)
  {
    |dets| == |pool| && |lms| == |pool| &&
    forall p | 0 <= p < |pool| :: dets[p] == s.detectionBboxes[pool[p]] && lms[p] == s.detectionLandmarks[pool[p]]
  }

  lemma PoolViewRemove(s: Snapshot, pool: seq<nat>, dets: seq<Box>, lms: seq<Landmark>, j: nat)
    requires Aligned(s) && InRange(s, pool) && PoolView(s, pool, dets, lms) && j < |pool|
    ensures InRange(s, pool[..j] + pool[j + 1..])
    ensures PoolView(s, pool[..j] + pool[j + 1..], dets[..j] + dets[j + 1..], lms[..j] + lms[j + 1..])
  {
    var pool', dets', lms' := pool[..j] + pool[j + 1..], dets[..j] + dets[j + 1..], lms[..j] + lms[j + 1..];
    forall p | 0 <= p < |pool'|
      ensures pool'[p] < |s.detectionBboxes|
      ensures dets'[p] == s.detectionBboxes[pool'[p]] && lms'[p] == s.detectionLandmarks[pool'[p]]
    {
      var q := if p < j then p else p + 1;
      assert pool'[p] == pool[q];
      if p < j {
        assert dets'[p] == dets[..j][p] && lms'[p] == lms[..j][p];
      } else {
        assert dets'[p] == dets[j + 1..][p - j] && lms'[p] == lms[j + 1..][p - j];
      }
    }
  }

  class Recognizer {
    var isRunning: bool
    var hudVisible: bool
    var idFaceMapping: map<int, string>
    var dataMapping: Snapshot
    var recognizedPersons: seq<Person>
    var trackingImage: Option<Frame>
    const config: TrackingConfig

    /** The published snapshot keeps IDs with tracked boxes and landmarks with detected
        boxes. */
    ghost predicate Valid()
      reads this
    {
      Aligned(dataMapping)
    }

    /** `Recognizer(...)`: not running, no captions, an empty snapshot, no image yet. */
    constructor(config: TrackingConfig, hudVisible: bool)
      ensures Valid()
      ensures this.config == config && this.hudVisible == hudVisible && !isRunning
      ensures idFaceMapping == map[] && recognizedPersons == [] && trackingImage == None
      ensures dataMapping == Snapshot(EmptyFrame, [], [], [], [])
    {
      this.config := config;
      this.hudVisible := hudVisible;
      isRunning := false;
      idFaceMapping := map[];
      dataMapping := Snapshot(EmptyFrame, [], [], [], []);
      recognizedPersons := [];
      trackingImage := None;
    }

    /** `get_image`: the last annotated frame, or the white placeholder before the first. */
    function GetImage(): (f: Frame)
      reads this
      ensures trackingImage.None? ==>
        f.height == 900 && f.width == 1600 && f.channels == 3 &&
        |f.pixels| == 900 * 1600 * 3 && forall k | 0 <= k < |f.pixels| :: f.pixels[k] == 255
      ensures trackingImage.Some? ==> f == trackingImage.value
    {
      if trackingImage.None? then Placeholder() else trackingImage.value
    }

    /** `set_hud_visible`. */
    method SetHudVisible(visible: bool)
      modifies this`hudVisible
      ensures hudVisible == visible
    {
      hudVisible := visible;
    }

    /** `process_tracking` on a frame the detector and tracker have already processed:
        `rawImage` is the detector's image, `targets` the tracker's online targets (None
        when the detector reports no outputs), `bboxes` and `landmarks` the detections.
        `raised` reports the TypeError of a caption without exactly one colon, which
        leaves the recognizer as it was. */
    method ProcessTracking(rawImage: Frame, targets: Option<seq<Target>>, bboxes: seq<Box>,
                           landmarks: seq<Landmark>, annotate: Annotate)
      returns (image: Frame, raised: bool)
      requires Valid() && |bboxes| == |landmarks|
      modifies this`recognizedPersons, this`dataMapping
      ensures Valid()
      ensures var kept := KeptOf(targets, config);
        var join := JoinSpec(Zip(IdsOf(kept), TlwhsOf(kept)), idFaceMapping);
        (raised <==> targets.Some? && join.Err?) &&
        (!raised && targets.Some? ==>
           recognizedPersons == join.value &&
           image == (if hudVisible then annotate(rawImage, TlwhsOf(kept), IdsOf(kept), idFaceMapping) else rawImage)) &&
        (!raised ==> dataMapping == Snapshot(rawImage, IdsOf(kept), bboxes, landmarks, BoxesOf(kept)))
      ensures targets.None? ==> recognizedPersons == old(recognizedPersons) && image == rawImage
      ensures raised ==> recognizedPersons == old(recognizedPersons) && dataMapping == old(dataMapping)
    {
      var trackingTlwhs: seq<Tlwh> := [];
      var trackingIds: seq<int> := [];
      var trackingBboxes: seq<Box> := [];
      image := rawImage;
      raised := false;
      if targets.Some? {
        var scores;
        trackingTlwhs, trackingIds, scores, trackingBboxes := FilterTargets(targets.value, config);
        var kept := KeptTargets(targets.value, config);
        assert trackingIds == IdsOf(kept) && trackingTlwhs == TlwhsOf(kept);
        var recs := BuildRecognized(trackingIds, trackingTlwhs, idFaceMapping);
        if recs.Err? {
          raised := true;
          return;
        }
        recognizedPersons := recs.value;
        if hudVisible {
          image := annotate(image, trackingTlwhs, trackingIds, idFaceMapping);
        }
      }
      assert trackingIds == IdsOf(KeptOf(targets, config));
      assert trackingBboxes == BoxesOf(KeptOf(targets, config));
      dataMapping := Snapshot(rawImage, trackingIds, bboxes, landmarks, trackingBboxes);
    }

    /** One turn of the `tracking` loop: process the source's frame (or the placeholder)
        and publish the resulting image. The detector is taken to return the frame it was
        given as its raw image, so that frame is what `ProcessTracking` receives. A raised error ends the loop, leaving the image
        as it was. */
    method TrackingStep(source: Option<Frame>, targets: Option<seq<Target>>, bboxes: seq<Box>,
                        landmarks: seq<Landmark>, annotate: Annotate)
      returns (raised: bool)
      requires Valid() && |bboxes| == |landmarks|
      modifies this`recognizedPersons, this`dataMapping, this`trackingImage
      ensures Valid()
      ensures var kept, frame := KeptOf(targets, config), InputFrame(source);
        var join := JoinSpec(Zip(IdsOf(kept), TlwhsOf(kept)), idFaceMapping);
        (raised <==> targets.Some? && join.Err?) &&
        (!raised && targets.Some? ==>
           recognizedPersons == join.value &&
           trackingImage == Some(if hudVisible then annotate(frame, TlwhsOf(kept), IdsOf(kept), idFaceMapping) else frame)) &&
        (!raised ==> dataMapping == Snapshot(frame, IdsOf(kept), bboxes, landmarks, BoxesOf(kept)))
      ensures targets.None? ==> recognizedPersons == old(recognizedPersons) && trackingImage == Some(InputFrame(source))
      ensures raised ==>
        recognizedPersons == old(recognizedPersons) && trackingImage == old(trackingImage) && dataMapping == old(dataMapping)
    {
      var img := if source.Some? then source.value else Placeholder();
      var image;
      image, raised := ProcessTracking(img, targets, bboxes, landmarks, annotate);
      if !raised {
        trackingImage := Some(image);
      }
    }

    /** One pass of the `recognize` loop over the snapshot the tracking step published:
        each tracked box claims the first remaining detection that overlaps it by more
        than 0.9 and that the matcher names, writes the caption under the track's ID and
        removes that detection from further matching. `idle` says whether the loop
        sleeps afterwards (no tracked boxes). */
    method RecognizePass(recog: Recognition, fmt: ScoreFormat) returns (idle: bool)
      requires Valid()
      modifies this`idFaceMapping
      ensures idFaceMapping ==
        PassUpTo(dataMapping, recog, fmt, old(idFaceMapping), |dataMapping.trackingBboxes|).mapping
      ensures idle <==> dataMapping.trackingBboxes == []
    {
      var snap := dataMapping;
      var detectionLandmarks, detectionBboxes := snap.detectionLandmarks, snap.detectionBboxes;
      var trackingBboxes := snap.trackingBboxes;
      ghost var m0 := idFaceMapping;
      ghost var st := PassUpTo(snap, recog, fmt, m0, 0);
      for i := 0 to |trackingBboxes|
        invariant st == PassUpTo(snap, recog, fmt, m0, i)
        invariant idFaceMapping == st.mapping
        invariant PoolView(snap, st.pool, detectionBboxes, detectionLandmarks)
      {
        detectionBboxes, detectionLandmarks := ResolveTrack(snap, recog, fmt, i, st, detectionBboxes, detectionLandmarks);
        st := StepTrack(snap, recog, fmt, st, i);
      }
      idle := trackingBboxes == [];
    }

    /** The inner loop of `recognize` for track `i`, over the detections not yet
        claimed (`dets` and `lms`, which `before.pool` locates in the snapshot): the
        first acceptable one writes its caption under the track's ID and is deleted
        from both arrays. */
    method ResolveTrack(snap: Snapshot, recog: Recognition, fmt: ScoreFormat, i: nat, ghost before: PassState,
                        dets: seq<Box>, lms: seq<Landmark>)
      returns (dets': seq<Box>, lms': seq<Landmark>)
      requires Aligned(snap) && i < |snap.trackingBboxes| && InRange(snap, before.pool)
      requires idFaceMapping == before.mapping && PoolView(snap, before.pool, dets, lms)
      modifies this`idFaceMapping
      ensures var r := StepTrack(snap, recog, fmt, before, i);
        idFaceMapping == r.mapping && PoolView(snap, r.pool, dets', lms')
    {
      dets', lms' := dets, lms;
      var j := 0;
      while j < |dets'|
        invariant 0 <= j <= |dets'| && dets' == dets && lms' == lms
        invariant idFaceMapping == before.mapping
        invariant FirstClaim(snap, recog, i, before.pool, 0) == FirstClaim(snap, recog, i, before.pool, j)
      {
        var mappingScore := MappingBbox(snap.trackingBboxes[i], dets'[j]);
        if mappingScore.Some? && mappingScore.value > 0.9 {
          var (score, name) := recog(snap.rawImage, lms'[j]);
          if name.Some? {
            var caption := Caption(score, name.value, fmt);
            idFaceMapping := idFaceMapping[snap.trackingIds[i] := caption];
            assert FirstClaim(snap, recog, i, before.pool, j) == Some(j);
            PoolViewRemove(snap, before.pool, dets', lms', j);
            dets' := dets'[..j] + dets'[j + 1..];
            lms' := lms'[..j] + lms'[j + 1..];
            return;
          }
        }
        j := j + 1;
      }
    }

    /** `start`: the loops run. */
    method Start()
      modifies this`isRunning
      ensures isRunning
    {
      isRunning := true;
    }

    /** `stop`: the loops stop; the threads are joined only if they were running. */
    method Stop() returns (joined: bool)
      modifies this`isRunning
      ensures !isRunning && (joined <==> old(isRunning))
    {
      joined := false;
      if isRunning {
        isRunning := false;
        joined := true;
      }
    }
  }
}
