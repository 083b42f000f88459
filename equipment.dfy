/**
 * Pixel scale and field of view derived from the equipment description
 * (equipment.py), with the fallback to the defaults of the reference set-up
 * whenever a value cannot be computed.
 *
 * The JSON document is reduced to what the calculation reads: the `specs`
 * object of the telescope and of the camera. Python's `round(x, n)` is a
 * parameter.
 */
module Equipment {
  import opened Wrappers

  const DefaultPixelScale: real := 1.48   // arcsec per pixel
  const DefaultFovWidth: real := 94.5     // arcmin
  const DefaultFovHeight: real := 53.1    // arcmin

  /** Arcseconds per radian over 1000: microns over millimetres to arcsec. */
  const ArcsecFactor: real := 206.265

  /**
   * One value of a `specs` object: missing or None, a number (falsy when
   * zero), or some other truthy value on which arithmetic raises.
   */
  datatype Field = Absent | Number(x: real) | Other {
    /** Python truthiness. */
    predicate Truthy() {
      Other? || (Number? && x != 0.0)
    }
  }

  /**
   * A top-level equipment entry: not in the document, present but without a
   * usable `specs` object (the subscript raises), or its `specs` fields.
   */
  datatype Section = Missing | NoSpecs | Specs(fields: map<string, Field>)

  datatype SpecsDoc = SpecsDoc(telescope: Section, camera: Section)

  datatype Params = Params(pixelScale: real, fovWidth: real, fovHeight: real)

  const Defaults: Params := Params(DefaultPixelScale, DefaultFovWidth, DefaultFovHeight)

  /** Pixel scale in arcsec per pixel from pixel size in microns and focal length in millimetres. */
  function PixelScaleOf(pixelSize: real, focalLength: real): real
    requires focalLength != 0.0
  {
    pixelSize / focalLength * ArcsecFactor
  }

  /** One side of the field of view in arcmin from its resolution and the pixel scale. */
  function FovSide(resolution: real, scale: real): real {
    resolution * scale / 60.0
  }

  /** `dict.get(key)`. */
  function Get(fields: map<string, Field>, key: string): Field {
    if key in fields then fields[key] else Absent
  }

  function FocalLength(doc: SpecsDoc): Field
    requires doc.telescope.Specs?
  {
    Get(doc.telescope.fields, "focal_length_mm")
  }

  function PixelSize(doc: SpecsDoc): Field
    requires doc.camera.Specs?
  {
    Get(doc.camera.fields, "pixel_size_microns")
  }

  function ResWidth(doc: SpecsDoc): Field
    requires doc.camera.Specs?
  {
    Get(doc.camera.fields, "resolution_width_px")
  }

  function ResHeight(doc: SpecsDoc): Field
    requires doc.camera.Specs?
  {
    Get(doc.camera.fields, "resolution_height_px")
  }

  /**
   * The unrounded pixel scale, when it is computed: both sections carry
   * `specs`, and focal length and pixel size are non-zero numbers. A zero
   * focal length is falsy, so the division never sees it.
   */
  function Scale(doc: SpecsDoc): (s: Option<real>)
    ensures s.Some? <==>
      && doc.telescope.Specs? && doc.camera.Specs?
      && FocalLength(doc).Number? && FocalLength(doc).x != 0.0
      && PixelSize(doc).Number? && PixelSize(doc).x != 0.0
    ensures s.Some? ==> s.value == PixelScaleOf(PixelSize(doc).x, FocalLength(doc).x)
    ensures s.Some? ==> s.value != 0.0
  {
    if doc.telescope.Specs? && doc.camera.Specs?
       && FocalLength(doc).Number? && FocalLength(doc).x != 0.0
       && PixelSize(doc).Number? && PixelSize(doc).x != 0.0
    then Some(PixelScaleOf(PixelSize(doc).x, FocalLength(doc).x))
    else None
  }

  /**
   * The unrounded field of view, when it is computed: only after a pixel
   * scale, from the unrounded scale, when both resolutions are non-zero numbers.
   */
  function Fov(doc: SpecsDoc): (f: Option<(real, real)>)
    ensures f.Some? ==> Scale(doc).Some?
    ensures f.Some? <==>
      && Scale(doc).Some?
      && ResWidth(doc).Number? && ResWidth(doc).x != 0.0
      && ResHeight(doc).Number? && ResHeight(doc).x != 0.0
    ensures f.Some? ==>
      f.value == (FovSide(ResWidth(doc).x, Scale(doc).value), FovSide(ResHeight(doc).x, Scale(doc).value))
  {
    if Scale(doc).Some? && ResWidth(doc).Number? && ResWidth(doc).x != 0.0
       && ResHeight(doc).Number? && ResHeight(doc).x != 0.0
    then
      var scale := Scale(doc).value;
      Some((FovSide(ResWidth(doc).x, scale), FovSide(ResHeight(doc).x, scale)))
    else None
  }

  /** What `calculate_equipment_params` returns for a document. */
  function ExpectedParams(doc: SpecsDoc, round: (real, nat) -> real): (p: Params)
    ensures Scale(doc).None? ==> p.pixelScale == DefaultPixelScale
    ensures Scale(doc).Some? ==> p.pixelScale == round(Scale(doc).value, 2)
    ensures Fov(doc).None? ==> p.fovWidth == DefaultFovWidth && p.fovHeight == DefaultFovHeight
    ensures Fov(doc).Some? ==>
      p.fovWidth == round(Fov(doc).value.0, 1) && p.fovHeight == round(Fov(doc).value.1, 1)
  {
    var scale := if Scale(doc).Some? then round(Scale(doc).value, 2) else DefaultPixelScale;
    match Fov(doc)
    case None => Params(scale, DefaultFovWidth, DefaultFovHeight)
    case Some(f) => Params(scale, round(f.0, 1), round(f.1, 1))
  }

  /**
   * `calculate_equipment_params`: start with nothing computed, fill in what
   * the document allows (a raising step leaves the rest uncomputed), then
   * put the defaults in place of what is missing.
   */
  method CalculateEquipmentParams(doc: SpecsDoc, round: (real, nat) -> real) returns (p: Params)
    ensures p == ExpectedParams(doc, round)
  {
    var pixelScale: Option<real> := None;
    var fovWidth: Option<real> := None;
    var fovHeight: Option<real> := None;
    if !doc.telescope.Missing? && !doc.camera.Missing? {
      // A section without `specs` raises at the subscript; the handler keeps what was set.
      if doc.telescope.Specs? && doc.camera.Specs? {
        var focal := FocalLength(doc);
        var pixel := PixelSize(doc);
        var width := ResWidth(doc);
        var height := ResHeight(doc);
        if focal.Truthy() && pixel.Truthy() {
          // Division raises on anything but two numbers.
          if focal.Number? && pixel.Number? {
            var scale := PixelScaleOf(pixel.x, focal.x);
            pixelScale := Some(round(scale, 2));
            if width.Truthy() && height.Truthy() && scale != 0.0 {
              // Multiplication raises on anything but numbers.
              if width.Number? && height.Number? {
                fovWidth := Some(round(FovSide(width.x, scale), 1));
                fovHeight := Some(round(FovSide(height.x, scale), 1));
              }
            }
          }
        }
      }
    }
    if pixelScale.None? {
      pixelScale := Some(DefaultPixelScale);
    }
    if fovWidth.None? || fovHeight.None? {
      fovWidth := Some(DefaultFovWidth);
      fovHeight := Some(DefaultFovHeight);
    }
    p := Params(pixelScale.value, fovWidth.value, fovHeight.value);
  }

  /** A document without both sections, or with one lacking `specs`, yields the three defaults. */
  lemma NoSectionsGiveDefaults(doc: SpecsDoc, round: (real, nat) -> real)
    requires !doc.telescope.Specs? || !doc.camera.Specs?
    ensures ExpectedParams(doc, round) == Defaults
  {
  }

  /**
   * The field of view is never mixed: either both values are the defaults
   * or both come from the same computed scale.
   */
  lemma {:induction false} FovNeverMixed(doc: SpecsDoc, round: (real, nat) -> real)
    ensures var p := ExpectedParams(doc, round);
      || (p.fovWidth == DefaultFovWidth && p.fovHeight == DefaultFovHeight)
      || (exists scale: real, w: real, h: real ::
            && Scale(doc) == Some(scale)
            && p.fovWidth == round(FovSide(w, scale), 1)
            && p.fovHeight == round(FovSide(h, scale), 1)
            && ResWidth(doc) == Number(w) && ResHeight(doc) == Number(h))
  {
    var p := ExpectedParams(doc, round);
    if Fov(doc).Some? {
      var scale := Scale(doc).value;
      var w, h := ResWidth(doc).x, ResHeight(doc).x;
      assert Scale(doc) == Some(scale) && p.fovWidth == round(FovSide(w, scale), 1);
    }
  }

  /**
   * The computed field of view uses the unrounded scale: with a rounding
   * that is not the identity the result can differ from one computed from
   * the reported pixel scale.
   */
  lemma FovUsesUnroundedScale(doc: SpecsDoc, round: (real, nat) -> real)
    requires Fov(doc).Some?
    ensures ExpectedParams(doc, round).fovWidth == round(FovSide(ResWidth(doc).x, Scale(doc).value), 1)
    ensures ExpectedParams(doc, round).fovHeight == round(FovSide(ResHeight(doc).x, Scale(doc).value), 1)
    ensures ExpectedParams(doc, round).pixelScale == round(Scale(doc).value, 2)
  {
  }

  /**
   * The reference set-up (focal length 405 mm, 2.9 micron pixels, 3840 x
   * 2160) gives a scale of about 1.4769 and a FOV of about 94.52 by 53.17
   * arcmin: to the reported precision 1.48 and 94.5 like the defaults, but
   * 53.2 rather than the default height of 53.1.
   */
  lemma ReferenceScale()
    ensures var doc := SpecsDoc(
      Specs(map["focal_length_mm" := Number(405.0)]),
      Specs(map["pixel_size_microns" := Number(2.9), "resolution_width_px" := Number(3840.0), "resolution_height_px" := Number(2160.0)]));
      && Scale(doc).Some?
      && 1.476 < Scale(doc).value < 1.477
      && Fov(doc).Some?
      && 94.5 < Fov(doc).value.0 < 94.55
      && 53.15 < Fov(doc).value.1 < 53.2
  {
  }

  // ---------------------------------------------------------------------
  // load_equipment_specs
  // ---------------------------------------------------------------------

  /** The outcome of opening and parsing the equipment file. */
  datatype FileRead = NotFound | ParseError | OtherError | Parsed(doc: SpecsDoc)

  /** The specs dictionary: the loaded document (empty when loading failed) and its `calculated` entry. */
  class EquipmentSpecs {
    var doc: Option<SpecsDoc>
    var calculated: Option<Params>

    /** `specs = {}`. */
    constructor ()
      ensures doc == None && calculated == None
    {
      doc := None;
      calculated := None;
    }

    /** `specs = json.load(file)`. */
    method Load(d: SpecsDoc)
      modifies this
      ensures doc == Some(d) && calculated == old(calculated)
    {
      doc := Some(d);
    }

    /** `specs['calculated'] = params`. */
    method SetCalculated(p: Params)
      modifies this
      ensures calculated == Some(p) && doc == old(doc)
    {
      calculated := Some(p);
    }
  }

  /**
   * `load_equipment_specs`: always leaves a `calculated` entry; on any
   * failure to read or parse, the document stays empty and the entry is the
   * defaults.
   */
  method LoadEquipmentSpecs(read: FileRead, round: (real, nat) -> real) returns (specs: EquipmentSpecs)
    ensures fresh(specs)
    ensures specs.calculated.Some?
    ensures read.Parsed? ==>
      specs.doc == Some(read.doc) && specs.calculated == Some(ExpectedParams(read.doc, round))
    ensures !read.Parsed? ==> specs.doc == None && specs.calculated == Some(Defaults)
  {
    specs := new EquipmentSpecs();
    match read {
      case Parsed(d) =>
        specs.Load(d);
        var p := CalculateEquipmentParams(d, round);
        specs.SetCalculated(p);
      case NotFound =>
        specs.SetCalculated(Defaults);
      case ParseError =>
        specs.SetCalculated(Defaults);
      case OtherError =>
        specs.SetCalculated(Defaults);
    }
  }
}
