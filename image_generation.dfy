/** The decision rules of the image generation service: which settings a
    device is rendered with, which output format a device model calls for,
    when a plugin's cached image must be dropped, and which cached images are
    still referenced. Rendering, the file system and the database are not
    part of this model; devices and plugins arrive as values. */
module ImageGeneration {
  import opened Php

  /** Settings used for a device that has no device model and no value of its own. */
  const DefaultWidth: int := 800
  const DefaultHeight: int := 480
  const DefaultRotation: int := 0
  const DefaultColors: int := 2
  const DefaultBitDepth: int := 1
  const DefaultScaleFactor: real := 1.0
  const DefaultMimeType: string := "image/png"
  const DefaultOffset: int := 0

  /** A device model: the authoritative display description of a kind of device. */
  datatype DeviceModel = DeviceModel(
    width: int, height: int, colors: int, bitDepth: int, scaleFactor: real,
    rotation: int, mimeType: string, offsetX: int, offsetY: int)

  /** The columns of a device row that the service reads. */
  datatype DeviceRecord = DeviceRecord(
    deviceModel: Option<DeviceModel>,
    width: Option<int>, height: Option<int>, rotate: Option<int>,
    imageFormat: Option<string>,
    currentScreenImage: Option<string>)

  /** The output formats named by the service and its tests. `Png1Bit` is a
      format of its own that a device may select, but no device model is
      classified as it. */
  datatype ImageFormat = Auto | Bmp3OneBitSrgb | Png1Bit | Png8BitGrayscale | Png8BitColors256 | Png2BitColors4

  /** The string a format is stored and compared as. */
  function FormatValue(f: ImageFormat): string {
    match f
    case Auto => "auto"
    case Bmp3OneBitSrgb => "bmp3_1bit_srgb"
    case Png1Bit => "png_1bit"
    case Png8BitGrayscale => "png_8bit_grayscale"
    case Png8BitColors256 => "png_8bit_256c"
    case Png2BitColors4 => "png_2bit_4c"
  }

  /** `ImageFormat::tryFrom`: the format a stored string names, if any. It
      is the inverse of a format's backing string (`->value`); its only use
      here is to show that those strings are distinct. */
  function ParseFormat(s: string): (f: Option<ImageFormat>)
    ensures f.Some? ==> FormatValue(f.value) == s
  {
    if s == "auto" then Some(Auto)
    else if s == "bmp3_1bit_srgb" then Some(Bmp3OneBitSrgb)
    else if s == "png_1bit" then Some(Png1Bit)
    else if s == "png_8bit_grayscale" then Some(Png8BitGrayscale)
    else if s == "png_8bit_256c" then Some(Png8BitColors256)
    else if s == "png_2bit_4c" then Some(Png2BitColors4)
    else None
  }

  /** Every format's string names that format back, so no two formats share one. */
  lemma FormatValueRoundTrip(f: ImageFormat)
    ensures ParseFormat(FormatValue(f)) == Some(f)
  {
  }

  /** The (mime type, bit depth, colors) triple a format is chosen for by
      classification; Auto stands for every triple not listed, and Png1Bit
      is never chosen. */
  function FormatTriple(f: ImageFormat): Option<(string, int, int)> {
    match f
    case Auto => None
    case Bmp3OneBitSrgb => Some(("image/bmp", 1, 2))
    case Png1Bit => None
    case Png8BitGrayscale => Some(("image/png", 8, 2))
    case Png8BitColors256 => Some(("image/png", 8, 256))
    case Png2BitColors4 => Some(("image/png", 2, 4))
  }

  /** `determineImageFormatFromModel`: an exact match on the model's
      (mime type, bit depth, colors), Auto when nothing matches. */
  function FormatForModel(model: DeviceModel): (f: ImageFormat)
    ensures f != Auto ==> FormatTriple(f) == Some((model.mimeType, model.bitDepth, model.colors))
    ensures f == Auto ==>
              forall g :: FormatTriple(g) != Some((model.mimeType, model.bitDepth, model.colors))
  {
    var m, b, c := model.mimeType, model.bitDepth, model.colors;
    if m == "image/bmp" && b == 1 && c == 2 then Bmp3OneBitSrgb
    else if m == "image/png" && b == 8 && c == 2 then Png8BitGrayscale
    else if m == "image/png" && b == 8 && c == 256 then Png8BitColors256
    else if m == "image/png" && b == 2 && c == 4 then Png2BitColors4
    else Auto
  }

  /** A model whose triple is a format's own triple classifies as that
      format, so every format listed in the table is reachable and the table
      has no overlapping rows. */
  lemma FormatForModelOfTriple(f: ImageFormat, model: DeviceModel)
    requires FormatTriple(f) == Some((model.mimeType, model.bitDepth, model.colors))
    ensures FormatForModel(model) == f
  {
  }

  /** The models of the unit test and the formats it expects. */
  lemma FormatForModelExamples(bmp: DeviceModel, gray: DeviceModel, c256: DeviceModel, c4: DeviceModel, other: DeviceModel)
    requires bmp.mimeType == "image/bmp" && bmp.bitDepth == 1 && bmp.colors == 2
    requires gray.mimeType == "image/png" && gray.bitDepth == 8 && gray.colors == 2
    requires c256.mimeType == "image/png" && c256.bitDepth == 8 && c256.colors == 256
    requires c4.mimeType == "image/png" && c4.bitDepth == 2 && c4.colors == 4
    requires other.mimeType == "image/jpeg" && other.bitDepth == 16 && other.colors == 65536
    ensures FormatValue(FormatForModel(bmp)) == "bmp3_1bit_srgb"
    ensures FormatValue(FormatForModel(gray)) == "png_8bit_grayscale"
    ensures FormatValue(FormatForModel(c256)) == "png_8bit_256c"
    ensures FormatValue(FormatForModel(c4)) == "png_2bit_4c"
    ensures FormatValue(FormatForModel(other)) == "auto"
  {
  }

  /** The resolved rendering settings of one device. */
  datatype ImageSettings = ImageSettings(
    width: int, height: int, colors: int, bitDepth: int, scaleFactor: real,
    rotation: int, mimeType: string, offsetX: int, offsetY: int,
    imageFormat: Option<string>, useModelSettings: bool)

  /** `getImageSettings`: a device model, when there is one, decides every
      setting; otherwise the device's own width, height and rotation apply,
      each falling back to its default, and the device's image format is
      passed on as it is, null included. */
  function GetImageSettings(device: DeviceRecord): (s: ImageSettings)
    ensures s.useModelSettings <==> device.deviceModel.Some?
    ensures device.deviceModel.Some? ==>
              var m := device.deviceModel.value;
              && s.width == m.width && s.height == m.height
              && s.colors == m.colors && s.bitDepth == m.bitDepth
              && s.scaleFactor == m.scaleFactor && s.rotation == m.rotation
              && s.mimeType == m.mimeType
              && s.offsetX == m.offsetX && s.offsetY == m.offsetY
              && s.imageFormat == Some(FormatValue(FormatForModel(m)))
    ensures device.deviceModel.None? ==>
              && s.width == (if device.width.Some? then device.width.value else DefaultWidth)
              && s.height == (if device.height.Some? then device.height.value else DefaultHeight)
              && s.rotation == (if device.rotate.Some? then device.rotate.value else DefaultRotation)
              && s.colors == DefaultColors && s.bitDepth == DefaultBitDepth
              && s.scaleFactor == DefaultScaleFactor && s.mimeType == DefaultMimeType
              && s.offsetX == DefaultOffset && s.offsetY == DefaultOffset
              && s.imageFormat == device.imageFormat
  {
    match device.deviceModel
    case Some(m) =>
      ImageSettings(m.width, m.height, m.colors, m.bitDepth, m.scaleFactor, m.rotation,
                    m.mimeType, m.offsetX, m.offsetY, Some(FormatValue(FormatForModel(m))), true)
    case None =>
      ImageSettings(
        match device.width case Some(w) => w case None => DefaultWidth,
        match device.height case Some(h) => h case None => DefaultHeight,
        DefaultColors, DefaultBitDepth, DefaultScaleFactor,
        match device.rotate case Some(r) => r case None => DefaultRotation,
        DefaultMimeType, DefaultOffset, DefaultOffset, device.imageFormat, false)
  }

  /** With a device model the device's own columns are ignored entirely:
      two devices with the same model get the same settings. */
  lemma ModelSettingsIgnoreDevice(d1: DeviceRecord, d2: DeviceRecord)
    requires d1.deviceModel.Some? && d1.deviceModel == d2.deviceModel
    ensures GetImageSettings(d1) == GetImageSettings(d2)
  {
  }

  /** The three settings tests: model settings, device settings, defaults. */
  lemma GetImageSettingsExamples(withModel: DeviceRecord, own: DeviceRecord, bare: DeviceRecord)
    requires withModel.deviceModel == Some(DeviceModel(1024, 768, 256, 8, 1.5, 90, "image/png", 10, 20))
    requires own.deviceModel.None? && own.width == Some(800) && own.height == Some(480)
    requires own.rotate == Some(180) && own.imageFormat == Some("png_8bit_grayscale")
    requires bare.deviceModel.None? && bare.width.None? && bare.height.None? && bare.rotate.None?
    requires bare.imageFormat.None?
    ensures GetImageSettings(withModel)
            == ImageSettings(1024, 768, 256, 8, 1.5, 90, "image/png", 10, 20, Some("png_8bit_256c"), true)
    ensures var s := GetImageSettings(own);
            s.width == 800 && s.height == 480 && s.rotation == 180
            && s.imageFormat == Some("png_8bit_grayscale") && !s.useModelSettings
    ensures GetImageSettings(bare) == ImageSettings(800, 480, 2, 1, 1.0, 0, "image/png", 0, 0, None, false)
  {
  }

  /** Settings that are the shared default rendering: no device model, and
      the default width, height and rotation. */
  predicate RendersAtDefaults(s: ImageSettings) {
    !s.useModelSettings && s.width == DefaultWidth && s.height == DefaultHeight
    && s.rotation == DefaultRotation
  }

  /** A device whose rendering differs from the shared default: it has a
      device model, or a width, height or rotation of its own that is not
      the default. A null column is the default. */
  predicate NonStandard(d: DeviceRecord): (nonStandard: bool)
    ensures nonStandard <==> !RendersAtDefaults(GetImageSettings(d))
  {
    || d.deviceModel.Some?
    || (d.width.Some? && d.width.value != DefaultWidth)
    || (d.height.Some? && d.height.value != DefaultHeight)
    || (d.rotate.Some? && d.rotate.value != DefaultRotation)
  }

  /** A plugin's rendered image may be shared only when no device anywhere is non-standard. */
  predicate Cacheable(devices: seq<DeviceRecord>): (cacheable: bool)
    ensures cacheable <==> forall i :: 0 <= i < |devices| ==> RendersAtDefaults(GetImageSettings(devices[i]))
  {
    forall i :: 0 <= i < |devices| ==> !NonStandard(devices[i])
  }

  /** When the cache is kept, every device renders at the same geometry
      with the same colour settings. Their `image_format` columns may still
      differ; this lemma says nothing about them. */
  lemma CacheableMeansUniformRendering(devices: seq<DeviceRecord>, i: int, j: int)
    requires Cacheable(devices)
    requires 0 <= i < |devices| && 0 <= j < |devices|
    ensures var si, sj := GetImageSettings(devices[i]), GetImageSettings(devices[j]);
            si.width == sj.width && si.height == sj.height && si.rotation == sj.rotation
            && si.colors == sj.colors && si.bitDepth == sj.bitDepth && si.mimeType == sj.mimeType
            && si.scaleFactor == sj.scaleFactor && !si.useModelSettings
  {
  }

  /** A plugin row; only its cached image key matters here. */
  class Plugin {
    var currentImage: Option<string>

    constructor (currentImage: Option<string>)
      ensures this.currentImage == currentImage
    {
      this.currentImage := currentImage;
    }
  }

  /** `resetIfNotCacheable`: drops the plugin's cached image when any device
      is non-standard, keeps it otherwise, and does nothing for a null plugin. */
  method ResetIfNotCacheable(plugin: Plugin?, devices: seq<DeviceRecord>)
    modifies plugin
    ensures plugin != null && !Cacheable(devices) ==> plugin.currentImage.None?
    ensures plugin != null && Cacheable(devices) ==> plugin.currentImage == old(plugin.currentImage)
  {
    if plugin != null && !Cacheable(devices) {
      plugin.currentImage := None;
    }
  }

  /** `pluck($column)->filter()`: the column's values that are not null and
      not falsy ("" and "0" are dropped too), in row order. */
  function Filled(column: seq<Option<string>>): (keys: seq<string>)
    ensures forall k :: k in keys <==> Some(k) in column && StringTruthy(k)
    ensures |keys| <= |column|
  {
    if column == [] then []
    else
      var rest := Filled(column[1..]);
      assert forall o :: o in column <==> o == column[0] || o in column[1..];
      if column[0].Some? && StringTruthy(column[0].value) then [column[0].value] + rest else rest
  }

  /** The image keys `cleanupFolder` keeps: the devices' filled screen
      images followed by the plugins' filled current images. */
  function ActiveImageKeys(devices: seq<DeviceRecord>, pluginImages: seq<Option<string>>): (keys: seq<string>)
    ensures forall k :: k in keys <==>
              StringTruthy(k) &&
              ((exists i :: 0 <= i < |devices| && devices[i].currentScreenImage == Some(k)) || Some(k) in pluginImages)
    ensures |keys| <= |devices| + |pluginImages|
  {
    // `pluck('current_screen_image')`: the column, in device order.
    var screens := seq(|devices|, i requires 0 <= i < |devices| => devices[i].currentScreenImage);
    assert forall i :: 0 <= i < |devices| ==> screens[i] == devices[i].currentScreenImage;
    assert forall k :: Some(k) in screens <==>
             exists i :: 0 <= i < |devices| && devices[i].currentScreenImage == Some(k);
    Filled(screens) + Filled(pluginImages)
  }

  /** The cleanup test: two devices with images, one without, one plugin image. */
  lemma ActiveImageKeysExample(devices: seq<DeviceRecord>)
    requires |devices| == 3
    requires devices[0].currentScreenImage == Some("active-uuid-1")
    requires devices[1].currentScreenImage == Some("active-uuid-2")
    requires devices[2].currentScreenImage.None?
    ensures ActiveImageKeys(devices, [Some("plugin-uuid")]) == ["active-uuid-1", "active-uuid-2", "plugin-uuid"]
  {
    var screens := seq(|devices|, i requires 0 <= i < |devices| => devices[i].currentScreenImage);
    assert screens == [Some("active-uuid-1"), Some("active-uuid-2"), None];
    assert Filled(screens[2..]) == [];
    assert Filled(screens[1..]) == ["active-uuid-2"];
    assert Filled([Some("plugin-uuid")]) == ["plugin-uuid"];
  }
}
