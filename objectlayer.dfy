/** Object layers (tiled/objectlayer.go): objects and their shapes, the polygon point-string
    parser, template handling when an object is decoded, and the draw-order and text-alignment
    parsers. */
module ObjectLayers {
  import opened Wrappers
  import opened Errors
  import opened Text
  import opened GlobalIds
  import opened Images
  import opened Properties
  import Lookup

  datatype DrawOrder = TopDown | Index
  datatype HAlignment = HLeft | HCenter | HRight | HJustify
  datatype VAlignment = VTop | VCenter | VBottom

  /** An X, Y coordinate. */
  datatype Point = Point(x: int, y: int)

  /** A polygon or polyline: the raw `points` attribute, parsed on demand by Points. */
  datatype Poly = Poly(rawPoints: string)

  datatype TextObject = TextObject(
    fontFamily: string,
    pixelSize: int,
    wrap: bool,
    bold: bool,
    italic: bool,
    underline: bool,
    strikeout: bool,
    kerning: bool,
    hAlign: HAlignment,
    vAlign: VAlignment,
    value: string)

  /** An object. The source's float32 coordinates are `real` here: the loader only compares
      them with zero and copies them. The <point> and <ellipse> markers are empty records, so
      they are `Option<()>`. */
  datatype Object = Object(
    objectID: u32,
    name: string,
    objectType: string,
    x: real,
    y: real,
    width: real,
    height: real,
    rotation: real,
    visible: bool,
    template: string,
    globalID: GlobalID,
    properties: Option<seq<Property>>,
    image: Option<Image>,
    polygon: Option<Poly>,
    polyline: Option<Poly>,
    text: Option<TextObject>,
    point: Option<()>,
    ellipse: Option<()>)

  datatype ObjectLayer = ObjectLayer(
    id: string,
    name: string,
    className: string,
    color: string,
    width: int,
    height: int,
    visible: bool,
    offsetX: int,
    offsetY: int,
    drawOrder: DrawOrder,
    properties: Option<seq<Property>>,
    objects: Option<seq<Object>>)

  /** A template document: the object it declares. */
  datatype Template = Template(obj: Option<Object>)

  /** `ObjectLayers.WithName`: the first layer with the name, or nothing. */
  function LayersWithName(ol: seq<ObjectLayer>, name: string): (r: Option<ObjectLayer>)
    ensures r.None? <==> forall j :: 0 <= j < |ol| ==> ol[j].name != name
    ensures r.Some? ==> exists i :: 0 <= i < |ol| && ol[i] == r.value && r.value.name == name &&
                                    forall j :: 0 <= j < i ==> ol[j].name != name
  {
    Lookup.FirstMatch(ol, (l: ObjectLayer) => l.name == name)
  }

  /** `Objects.WithName`: the first object with the name, or nothing. */
  function ObjectsWithName(os: seq<Object>, name: string): (r: Option<Object>)
    ensures r.None? <==> forall j :: 0 <= j < |os| ==> os[j].name != name
    ensures r.Some? ==> exists i :: 0 <= i < |os| && os[i] == r.value && r.value.name == name &&
                                    forall j :: 0 <= j < i ==> os[j].name != name
  {
    Lookup.FirstMatch(os, (o: Object) => o.name == name)
  }

  predicate IsPoint(o: Object) { o.point.Some? }
  predicate IsPolygon(o: Object) { o.polygon.Some? }
  predicate IsPolyline(o: Object) { o.polyline.Some? }
  predicate IsEllipse(o: Object) { o.ellipse.Some? }
  predicate IsText(o: Object) { o.text.Some? }

  /** The five shape tests are independent presence tests: every combination of answers is
      shown by some object, so an object can be, say, a point and a polygon at once. */
  lemma ShapeTestsIndependent(point: bool, polygon: bool, polyline: bool, ellipse: bool, text: bool)
    ensures exists o: Object ::
      IsPoint(o) == point && IsPolygon(o) == polygon && IsPolyline(o) == polyline &&
      IsEllipse(o) == ellipse && IsText(o) == text
  {
    var t := TextObject("", 0, false, false, false, false, false, false, HLeft, VTop, "");
    var o := Object(0, "", "", 0.0, 0.0, 0.0, 0.0, 0.0, false, "", 0, None, None,
      if polygon then Some(Poly("")) else None,
      if polyline then Some(Poly("")) else None,
      if text then Some(t) else None,
      if point then Some(()) else None,
      if ellipse then Some(()) else None);
    assert IsPoint(o) == point && IsPolygon(o) == polygon && IsPolyline(o) == polyline &&
      IsEllipse(o) == ellipse && IsText(o) == text;
  }

  // ---------------------------------------------------------------------------------------
  // Poly.Points

  /** One point token "x,y": exactly two comma-separated parts, each a signed 32-bit decimal
      taken as it is (no trimming). */
  function ParsePoint(token: string): (r: Result<Point>)
    ensures r.Ok? ==> Count(token, ',') == 1
    ensures Count(token, ',') != 1 ==> r == Err(PointArity(Count(token, ',') + 1, token))
    ensures r.Ok? ==> ParseInt(Split(token, ',')[0], 32) == Ok(r.value.x) &&
                      ParseInt(Split(token, ',')[1], 32) == Ok(r.value.y)
    ensures Count(token, ',') == 1 ==>
      var x, y := ParseInt(Split(token, ',')[0], 32), ParseInt(Split(token, ',')[1], 32);
      (x.Err? ==> r == Err(x.error)) &&
      (x.Ok? && y.Err? ==> r == Err(y.error)) &&
      (x.Ok? && y.Ok? ==> r == Ok(Point(x.value, y.value)))
  {
    var xy := Split(token, ',');
    if |xy| != 2 then Err(PointArity(|xy|, token))
    else match ParseInt(xy[0], 32)
      case Err(e) => Err(e)
      case Ok(x) =>
        match ParseInt(xy[1], 32)
        case Err(e) => Err(e)
        case Ok(y) => Ok(Point(x, y))
  }

  /** The points of the tokens up to the first bad one, and that token's error if there is one. */
  function ParsePoints(tokens: seq<string>): (r: (seq<Point>, Option<Error>))
    ensures |r.0| <= |tokens|
    ensures forall k :: 0 <= k < |r.0| ==> ParsePoint(tokens[k]) == Ok(r.0[k])
    ensures r.1.None? ==> |r.0| == |tokens|
    ensures r.1.Some? ==> |r.0| < |tokens| && ParsePoint(tokens[|r.0|]) == Err(r.1.value)
  {
    CollectSpec(tokens, ParsePoint);
    Collect(tokens, ParsePoint)
  }

  /** `Poly.Points`: split the raw text on single spaces and parse every token as a point
      (ParsePoint is the loop body's split and two integer conversions), appending as it goes;
      the first bad token stops the loop and its error is returned with the points gathered
      so far. */
  method Points(p: Poly) returns (pts: seq<Point>, err: Option<Error>)
    ensures (pts, err) == ParsePoints(Split(p.rawPoints, ' '))
  {
    var tokens := Split(p.rawPoints, ' ');
    pts := [];
    err := None;
    var i := 0;
    while i < |tokens|
      invariant 0 <= i <= |tokens| && |pts| == i
      invariant forall k :: 0 <= k < i ==> ParsePoint(tokens[k]) == Ok(pts[k])
    {
      var point := ParsePoint(tokens[i]);
      if point.Err? {
        err := Some(point.error);
        CollectOf(tokens, ParsePoint, pts, err);
        return;
      }
      pts := pts + [point.value];
      i := i + 1;
    }
    CollectOf(tokens, ParsePoint, pts, err);
  }

  /** On success there is one point per space-separated token, so as many points as spaces
      plus one, in input order. */
  lemma PointsCount(raw: string)
    ensures ParsePoints(Split(raw, ' ')).1.None? ==>
      |ParsePoints(Split(raw, ' ')).0| == Count(raw, ' ') + 1
  {
  }

  /** An empty point string is an error: its one token has one part, not two. */
  lemma EmptyPointsFail()
    ensures ParsePoints(Split("", ' ')) == ([], Some(PointArity(1, "")))
  {
  }

  /** The text of one point, as the TMX format writes it. */
  function FormatPoint(p: Point): string
  {
    FormatInt(p.x) + "," + FormatInt(p.y)
  }

  function PointTokens(pts: seq<Point>): (r: seq<string>)
    ensures |r| == |pts|
  {
    if pts == [] then [] else [FormatPoint(pts[0])] + PointTokens(pts[1..])
  }

  /** The `points` attribute of a polygon or polyline: "x,y" pairs separated by single spaces. */
  function FormatPoints(pts: seq<Point>): string
  {
    Join(PointTokens(pts), ' ')
  }

  /** Both coordinates of the point fit a signed 32-bit integer. */
  predicate PointInInt32(p: Point)
  {
    InInt32(p.x) && InInt32(p.y)
  }

  lemma {:induction false} ParsePointFormatPoint(p: Point)
    requires PointInInt32(p)
    ensures ParsePoint(FormatPoint(p)) == Ok(p)
  {
    FormatIntHasNo(p.x, ',');
    FormatIntHasNo(p.y, ',');
    SplitJoin([FormatInt(p.x), FormatInt(p.y)], ',');
    assert Join([FormatInt(p.x), FormatInt(p.y)], ',') == FormatPoint(p);
    ParseIntFormatInt(p.x, 32);
    ParseIntFormatInt(p.y, 32);
  }

  lemma {:induction false} ParsePointsFormatted(pts: seq<Point>)
    requires forall k :: 0 <= k < |pts| ==> PointInInt32(pts[k])
    ensures ParsePoints(PointTokens(pts)) == (pts, None)
  {
    if pts != [] {
      ParsePointFormatPoint(pts[0]);
      ParsePointsFormatted(pts[1..]);
      assert [pts[0]] + pts[1..] == pts;
    }
  }

  lemma {:induction false} PointTokensHaveNoSpace(pts: seq<Point>)
    ensures forall k :: 0 <= k < |pts| ==> ' ' !in PointTokens(pts)[k]
  {
    if pts != [] {
      FormatIntHasNo(pts[0].x, ' ');
      FormatIntHasNo(pts[0].y, ' ');
      assert ' ' !in FormatPoint(pts[0]);
      PointTokensHaveNoSpace(pts[1..]);
    }
  }

  /** Points reads back every non-empty list of 32-bit points written in the TMX point format. */
  lemma PointsRoundTrip(pts: seq<Point>)
    requires |pts| >= 1 && forall k :: 0 <= k < |pts| ==> PointInInt32(pts[k])
    ensures ParsePoints(Split(FormatPoints(pts), ' ')) == (pts, None)
  {
    PointTokensHaveNoSpace(pts);
    SplitJoin(PointTokens(pts), ' ');
    ParsePointsFormatted(pts);
  }

  // ---------------------------------------------------------------------------------------
  // Object.UnmarshalXML: template handling

  /** A field the object leaves at its zero value takes the other value; a set field stays. */
  function OrText(mine: string, theirs: string): string { if mine == "" then theirs else mine }
  function OrReal(mine: real, theirs: real): real { if mine == 0.0 then theirs else mine }
  function OrGlobalID(mine: GlobalID, theirs: GlobalID): GlobalID { if mine == 0 then theirs else mine }
  function OrSome<T>(mine: Option<T>, theirs: Option<T>): Option<T> { if mine.None? then theirs else mine }

  /** The guarded copy as written at objectlayer.go:241-288: every unset field of `o` takes the
      value of `t`, in field order, except the polyline, whose guard tests the polygon as the
      copy just before it left it. */
  function AdoptUnsetAsWritten(o: Object, t: Object): (r: Object)
    ensures r.objectID == o.objectID && r.template == o.template
    ensures r.polygon == OrSome(o.polygon, t.polygon)
    ensures r.polyline == (if r.polygon.None? then t.polyline else o.polyline)
  {
    Object(o.objectID, OrText(o.name, t.name), OrText(o.objectType, t.objectType),
      OrReal(o.x, t.x), OrReal(o.y, t.y), OrReal(o.width, t.width), OrReal(o.height, t.height),
      OrReal(o.rotation, t.rotation), o.visible || t.visible, o.template,
      OrGlobalID(o.globalID, t.globalID), OrSome(o.properties, t.properties),
      OrSome(o.image, t.image), OrSome(o.polygon, t.polygon),
      if OrSome(o.polygon, t.polygon).None? then t.polyline else o.polyline,
      OrSome(o.text, t.text), OrSome(o.point, t.point), OrSome(o.ellipse, t.ellipse))
  }

  /** The evidently intended template merge: every field the object leaves at its zero value
      (empty text, 0, false, absent) takes the template's value and every field set on the
      object keeps its own; the ID and the template reference are the object's. A zero number
      counts as unset, as in the source. */
  function MergeTemplate(o: Object, t: Object): (r: Object)
    ensures r.objectID == o.objectID && r.template == o.template
    ensures r.name == (if o.name == "" then t.name else o.name)
    ensures r.polyline == (if o.polyline.None? then t.polyline else o.polyline)
    ensures r.visible <==> o.visible || t.visible
  {
    Object(o.objectID, OrText(o.name, t.name), OrText(o.objectType, t.objectType),
      OrReal(o.x, t.x), OrReal(o.y, t.y), OrReal(o.width, t.width), OrReal(o.height, t.height),
      OrReal(o.rotation, t.rotation), o.visible || t.visible, o.template,
      OrGlobalID(o.globalID, t.globalID), OrSome(o.properties, t.properties),
      OrSome(o.image, t.image), OrSome(o.polygon, t.polygon), OrSome(o.polyline, t.polyline),
      OrSome(o.text, t.text), OrSome(o.point, t.point), OrSome(o.ellipse, t.ellipse))
  }

  /** `Object.UnmarshalXML` after the XML decoder has produced `decoded`. With no template the
      object is returned as decoded and nothing is loaded. With a template, the document is
      loaded from the template path relative to `baseDir`, and an open or decode failure is
      returned. On success the fields are copied one by one, each guarded by its zero test, but
      the copy's source is the decoded object itself, never the loaded template, so the object
      ends exactly as it was decoded. */
  method DecodeObject(decoded: Object, baseDir: string, loadTemplate: (string, string) -> Load<Template>)
    returns (o: Object, err: Option<Error>)
    ensures o == AdoptUnsetAsWritten(decoded, decoded) == decoded
    ensures decoded.template == "" ==> err.None?
    ensures decoded.template != "" ==>
      match loadTemplate(baseDir, decoded.template)
      case OpenFailed(e) => err == Some(OpeningTemplate(e))
      case DecodeFailed(e) => err == Some(DecodingTemplate(e))
      case Loaded(_) => err.None?
  {
    var tmp := decoded;
    o := tmp;
    err := None;
    if tmp.template == "" {
      return;
    }
    var loaded := loadTemplate(baseDir, tmp.template);
    if loaded.OpenFailed? {
      err := Some(OpeningTemplate(loaded.cause));
      return;
    }
    if loaded.DecodeFailed? {
      err := Some(DecodingTemplate(loaded.cause));
      return;
    }
    o := o.(name := OrText(o.name, tmp.name));
    o := o.(objectType := OrText(o.objectType, tmp.objectType));
    o := o.(x := OrReal(o.x, tmp.x));
    o := o.(y := OrReal(o.y, tmp.y));
    o := o.(width := OrReal(o.width, tmp.width));
    o := o.(height := OrReal(o.height, tmp.height));
    o := o.(rotation := OrReal(o.rotation, tmp.rotation));
    o := o.(visible := o.visible || tmp.visible);
    o := o.(globalID := OrGlobalID(o.globalID, tmp.globalID));
    o := o.(properties := OrSome(o.properties, tmp.properties));
    o := o.(image := OrSome(o.image, tmp.image));
    o := o.(polygon := OrSome(o.polygon, tmp.polygon));
    if o.polygon.None? {
      o := o.(polyline := tmp.polyline);
    }
    o := o.(text := OrSome(o.text, tmp.text));
    o := o.(ellipse := OrSome(o.ellipse, tmp.ellipse));
    o := o.(point := OrSome(o.point, tmp.point));
  }

  /** The intended decode: as DecodeObject, but a loaded template that declares an object is
      merged into the decoded object with MergeTemplate. */
  function DecodeObjectIntended(decoded: Object, baseDir: string, loadTemplate: (string, string) -> Load<Template>)
    : (r: Result<Object>)
    ensures decoded.template == "" ==> r == Ok(decoded)
    ensures decoded.template != "" ==>
      match loadTemplate(baseDir, decoded.template)
      case OpenFailed(e) => r == Err(OpeningTemplate(e))
      case DecodeFailed(e) => r == Err(DecodingTemplate(e))
      case Loaded(t) => r.Ok? && (t.obj.Some? ==> r.value == MergeTemplate(decoded, t.obj.value)) &&
                        (t.obj.None? ==> r.value == decoded)
  {
    if decoded.template == "" then Ok(decoded)
    else match loadTemplate(baseDir, decoded.template)
      case OpenFailed(e) => Err(OpeningTemplate(e))
      case DecodeFailed(e) => Err(DecodingTemplate(e))
      case Loaded(t) => if t.obj.None? then Ok(decoded) else Ok(MergeTemplate(decoded, t.obj.value))
  }

  /** An object with every mergeable field unset: only its ID and template reference. */
  function Blank(id: u32, template: string): Object
  {
    Object(id, "", "", 0.0, 0.0, 0.0, 0.0, 0.0, false, template, 0, None, None, None, None, None, None, None)
  }

  /** The intended merge keeps set fields and adopts unset ones: a blank template changes
      nothing, a blank object adopts all of the template but its own ID and template reference,
      and merging the same template twice is merging it once. */
  lemma MergeTemplateLaws(o: Object, t: Object)
    ensures MergeTemplate(o, Blank(0, "")) == o
    ensures MergeTemplate(Blank(o.objectID, o.template), t) ==
            t.(objectID := o.objectID, template := o.template)
    ensures MergeTemplate(MergeTemplate(o, t), t) == MergeTemplate(o, t)
  {
  }

  /** The polyline guard tests the polygon, after the polygon copy. With a copy source `t`
      other than the object itself, the guarded copy agrees with the intended merge on every
      field but the polyline. When neither the object nor `t` has a polygon, `t`'s polyline
      replaces the object's, even one the object has; a polygon on either side blocks the
      polyline copy, so an object without a polyline does not adopt `t`'s. As written the copy
      source is the object itself, so the defect stays hidden (DecodeObject); it shows once
      the copy reads the template. */
  lemma AdoptUnsetAsWrittenPolyline(o: Object, t: Object)
    ensures AdoptUnsetAsWritten(o, t) ==
      MergeTemplate(o, t).(polyline := AdoptUnsetAsWritten(o, t).polyline)
    ensures o.polygon.None? && t.polygon.None? ==> AdoptUnsetAsWritten(o, t).polyline == t.polyline
    ensures o.polygon.Some? || t.polygon.Some? ==> AdoptUnsetAsWritten(o, t).polyline == o.polyline
    ensures o.polygon.None? && t.polygon.None? && o.polyline.Some? && t.polyline != o.polyline ==>
      AdoptUnsetAsWritten(o, t).polyline == t.polyline != MergeTemplate(o, t).polyline
    ensures (o.polygon.Some? || t.polygon.Some?) && o.polyline.None? && t.polyline.Some? ==>
      AdoptUnsetAsWritten(o, t).polyline == None != MergeTemplate(o, t).polyline
  {
  }

  /** A counterexample for the unused template: an unnamed object whose template names it
      "Default" is decoded without a name (DecodeObject returns the object as decoded, which
      the guarded copy from the object itself leaves unnamed), where the intended decode names
      it "Default"; an
      object named "Custom" keeps its name under both. */
  lemma TemplateIgnored(decoded: Object, baseDir: string, loadTemplate: (string, string) -> Load<Template>)
    requires decoded.template != "" && decoded.name == ""
    requires loadTemplate(baseDir, decoded.template) == Loaded(Template(Some(Blank(0, "").(name := "Default"))))
    ensures AdoptUnsetAsWritten(decoded, decoded).name == ""
    ensures DecodeObjectIntended(decoded, baseDir, loadTemplate) == Ok(decoded.(name := "Default"))
    ensures DecodeObjectIntended(decoded.(name := "Custom"), baseDir, loadTemplate) == Ok(decoded.(name := "Custom"))
  {
    MergeTemplateLaws(decoded, Blank(0, "").(name := "Default"));
  }

  // ---------------------------------------------------------------------------------------
  // Enumerations

  /** `DrawOrder.UnmarshalText`: "" or "topdown" is TopDown, "index" is Index, in any case. */
  function ParseDrawOrder(text: string): (r: Result<DrawOrder>)
    ensures r.Ok? <==> ToLower(text) in {"", "topdown", "index"}
    ensures r.Ok? ==> (r.value == Index <==> ToLower(text) == "index")
    ensures r.Err? ==> r.error == UnknownDrawOrder(ToLower(text))
  {
    var s := ToLower(text);
    if s == "" || s == "topdown" then Ok(TopDown)
    else if s == "index" then Ok(Index)
    else Err(UnknownDrawOrder(s))
  }

  function HAlignmentName(a: HAlignment): string
  {
    match a
    case HLeft => "left"
    case HCenter => "center"
    case HRight => "right"
    case HJustify => "justify"
  }

  /** `HAlignment.UnmarshalText`: "" is left; otherwise one of the four names, in any case. */
  function ParseHAlignment(text: string): (r: Result<HAlignment>)
    ensures r.Ok? <==> ToLower(text) in {"", "left", "center", "right", "justify"}
    ensures r.Ok? && ToLower(text) != "" ==> HAlignmentName(r.value) == ToLower(text)
    ensures ToLower(text) == "" ==> r == Ok(HLeft)
    ensures r.Err? ==> r.error == UnknownHAlignment(ToLower(text))
  {
    var s := ToLower(text);
    if s == "" || s == "left" then Ok(HLeft)
    else if s == "center" then Ok(HCenter)
    else if s == "right" then Ok(HRight)
    else if s == "justify" then Ok(HJustify)
    else Err(UnknownHAlignment(s))
  }

  function VAlignmentName(a: VAlignment): string
  {
    match a
    case VTop => "top"
    case VCenter => "center"
    case VBottom => "bottom"
  }

  /** `VAlignment.UnmarshalText`: "" is top; otherwise one of the three names, in any case. */
  function ParseVAlignment(text: string): (r: Result<VAlignment>)
    ensures r.Ok? <==> ToLower(text) in {"", "top", "center", "bottom"}
    ensures r.Ok? && ToLower(text) != "" ==> VAlignmentName(r.value) == ToLower(text)
    ensures ToLower(text) == "" ==> r == Ok(VTop)
    ensures r.Err? ==> r.error == UnknownVAlignment(ToLower(text))
  {
    var s := ToLower(text);
    if s == "" || s == "top" then Ok(VTop)
    else if s == "center" then Ok(VCenter)
    else if s == "bottom" then Ok(VBottom)
    else Err(UnknownVAlignment(s))
  }

  /** Every alignment's name parses back to that alignment, in any letter case, and the empty
      text gives the default. */
  lemma AlignmentNames(h: HAlignment, v: VAlignment, text: string)
    ensures ToLower(text) == HAlignmentName(h) ==> ParseHAlignment(text) == Ok(h)
    ensures ToLower(text) == VAlignmentName(v) ==> ParseVAlignment(text) == Ok(v)
    ensures ParseHAlignment("") == Ok(HLeft) && ParseVAlignment("") == Ok(VTop)
  {
  }
}
