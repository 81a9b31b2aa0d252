# Device rendering decisions of a TRMNL e-ink server, in Dafny

This project models the decision logic a TRMNL e-ink dashboard server uses
for its devices:

- **Telemetry** (`telemetry.dfy`): the battery percentage from the last
  reported voltage (3.0 V empty, 4.2 V full, linear in between, PHP `round`),
  and the Wi-Fi bars from the last reported RSSI (0 bars for a non-negative
  reading, then 1/2/3 bars at the -80 and -60 dBm thresholds).
- **Device record** (`devices.dfy`): the `update_firmware` and `firmware_url`
  accessors over the cloud proxy's JSON response, `resetUpdateFirmwareFlag`
  as an in-place update of a `Device` object, and `getNextPlaylistItem` as a
  loop with early return over the device's active playlists.
- **Image generation** (`image_generation.dfy`): the settings a device is
  rendered with (the device model overrides the device, which overrides the
  defaults 800×480, rotation 0, 2 colours, 1 bit, scale 1.0, `image/png`,
  offsets 0), the exact-match choice of output format from a model's
  (MIME type, bit depth, colours), the global rule that any non-standard
  device invalidates a plugin's cached image, and the set of image keys that
  are still referenced.
- **Device log page** (`device_logs.dfy`): the severity badge of a log
  message (case-insensitive "error" before "warning" before Info), its
  colour, and the device-status label.
- `php.dfy` holds the PHP value semantics these rely on: JSON values as the
  `json` cast decodes them, PHP truthiness, reading a missing key, `isset`.

Clocks, the database and the playlists' own scheduling come in as values:
the playlists are a sequence of records, and whether a playlist is active
now and which item it offers next are function parameters.

The image generation service's implementation is not part of this model;
its behaviour is taken from what its unit tests assert, and each row below
cites those test lines.

## Model

| member | source | states |
|---|---|---|
| `Telemetry.Round` | app/Models/Device.php:43 | the result is the nearest integer; a half rounds away from zero |
| `Telemetry.BatteryPercent` | app/Models/Device.php:25-44 | 0 at or below 3.0 V (and for a null voltage), 100 at or above 4.2 V, in between the integer nearest the linear percentage; always within 0..100 |
| `Telemetry.BatteryPercentMonotone` | app/Models/Device.php:30-43 | a higher voltage never shows a lower percentage |
| `Telemetry.BatteryPercentExamples` | tests/Feature/Devices/DeviceTest.php:17-35 | 3.0→0, 4.2→100, 2.9→0, 4.3→100, 3.6→50, 3.3→25 |
| `Telemetry.WifiStrength` | app/Models/Device.php:46-58 | 0 bars exactly for a non-negative or null RSSI, 1 exactly at or below -80, 2 exactly in (-80, -60], 3 exactly in (-60, 0); always 0..3 |
| `Telemetry.WifiStrengthMonotone` | app/Models/Device.php:48-57 | among negative readings a stronger signal never shows fewer bars |
| `Telemetry.WifiStrengthExamples` | tests/Feature/Devices/DeviceTest.php:37-53 | 0→0, -90→1, -70→2, -50→3 |
| `Devices.UpdateFirmware` | app/Models/Device.php:60-67 | true exactly when the response is present and its `update_firmware` entry exists and is truthy |
| `Devices.FirmwareUrl` | app/Models/Device.php:69-76 | the `firmware_url` entry exactly when it exists and is truthy, otherwise null |
| `Devices.ResetFlag` | app/Models/Device.php:78-84 | a non-empty response gets `update_firmware` = false with every other key and value unchanged; a null or empty response is left as it is |
| `Devices.ResetClearsUpdate` | app/Models/Device.php:60-84 | after a reset no firmware update is pending |
| `Devices.ResetKeepsFirmwareUrl` | app/Models/Device.php:69-84 | a reset does not change the firmware URL |
| `Devices.ResetIdempotent` | app/Models/Device.php:78-84 | resetting twice equals resetting once |
| `Devices.Device.ResetUpdateFirmwareFlag` | app/Models/Device.php:78-84 | the device's response becomes the reset response, no update is pending, the URL is unchanged, and no other field is modified |
| `Devices.ActivePlaylists` | app/Models/Device.php:94-96 | exactly the playlists with `is_active` set, never more than given |
| `Devices.ActivePlaylistsAppend` | app/Models/Device.php:94-96 | the filter keeps the playlists' relative order |
| `Devices.FirstAvailable` | app/Models/Device.php:99-106 | the result is null exactly when no playlist is active now with an item; a found item is offered by a playlist that is active now |
| `Devices.FirstAvailableIsFirstMatch` | app/Models/Device.php:98-108 | nothing is found exactly when no playlist is active now with an item; a found item belongs to such a playlist with none before it |
| `Devices.FirstAvailableIgnoresLater` | app/Models/Device.php:99-106 | once a playlist has yielded, appending later playlists does not change the result |
| `Devices.Device.NextPlaylistItem` | app/Models/Device.php:91-109 | the loop returns the first-match item over the active playlists, and null exactly when no active playlist is active now with an item |
| `ImageGeneration.ParseFormat` | tests/Unit/Services/ImageGenerationServiceTest.php:255-258 | a parsed format's stored string is the parsed string |
| `ImageGeneration.FormatValueRoundTrip` | tests/Unit/Services/ImageGenerationServiceTest.php:255-258 | every format's stored string, the never-classified `png_1bit` included, parses back to that format, so the strings are distinct |
| `ImageGeneration.FormatForModel` | tests/Unit/Services/ImageGenerationServiceTest.php:116-167 | a concrete format is returned only for its own exact (MIME type, bit depth, colours) triple; Auto only when no format has the model's triple |
| `ImageGeneration.FormatForModelOfTriple` | tests/Unit/Services/ImageGenerationServiceTest.php:123-157 | each listed triple is classified as its format |
| `ImageGeneration.FormatForModelExamples` | tests/Unit/Services/ImageGenerationServiceTest.php:123-166 | bmp/1/2, png/8/2, png/8/256, png/2/4 and jpeg/16/65536 give the tested format strings |
| `ImageGeneration.GetImageSettings` | tests/Unit/Services/ImageGenerationServiceTest.php:20-114 | with a device model every setting is the model's and `use_model_settings` is true; without one, width, height and rotation are the device's or the default, the other settings the defaults, `image_format` the device's (null included), and `use_model_settings` false |
| `ImageGeneration.ModelSettingsIgnoreDevice` | tests/Unit/Services/ImageGenerationServiceTest.php:20-57 | two devices with the same model get identical settings whatever their own columns hold |
| `ImageGeneration.GetImageSettingsExamples` | tests/Unit/Services/ImageGenerationServiceTest.php:20-114 | the three tested devices resolve to the tested settings |
| `ImageGeneration.NonStandard` | tests/Unit/Services/ImageGenerationServiceTest.php:195-247 | a device is non-standard exactly when it would not render without model settings at 800×480, rotation 0 |
| `ImageGeneration.Cacheable` | tests/Unit/Services/ImageGenerationServiceTest.php:195-247 | the cache may be kept exactly when every device renders without model settings at 800×480, rotation 0 |
| `ImageGeneration.CacheableMeansUniformRendering` | tests/Unit/Services/ImageGenerationServiceTest.php:230-247 | when the cache is kept, any two devices render with the same geometry and colour settings |
| `ImageGeneration.ResetIfNotCacheable` | tests/Unit/Services/ImageGenerationServiceTest.php:195-253 | the plugin's image key becomes null when any device is non-standard and is unchanged otherwise; a null plugin is a no-op |
| `ImageGeneration.Filled` | tests/Unit/Services/ImageGenerationServiceTest.php:185-186 | the result holds exactly the column's non-null truthy values and is no longer than the column |
| `ImageGeneration.ActiveImageKeys` | tests/Unit/Services/ImageGenerationServiceTest.php:185-192 | a key is active exactly when it is truthy and is some device's screen image or some plugin's image; null is never in it |
| `ImageGeneration.ActiveImageKeysExample` | tests/Unit/Services/ImageGenerationServiceTest.php:169-193 | the tested devices and plugin give the keys active-uuid-1, active-uuid-2 and plugin-uuid |
| `DeviceLogs.Lower` | resources/views/livewire/devices/logs.blade.php:54 | `strtolower` keeps the length, leaves no ASCII capital, maps each capital to its lower-case letter and keeps every other character |
| `DeviceLogs.Contains` | resources/views/livewire/devices/logs.blade.php:54 | `str_contains` is true for the empty needle and never true for a needle longer than the haystack |
| `DeviceLogs.ContainsIff` | resources/views/livewire/devices/logs.blade.php:54 | `str_contains` holds exactly when the needle occurs at some position |
| `DeviceLogs.LogSeverity` | resources/views/livewire/devices/logs.blade.php:61-62 | Error exactly when the lower-cased message contains "error"; Warning exactly when it contains "warning" but not "error"; Info exactly when it contains neither |
| `DeviceLogs.LogBadgeColour` | resources/views/livewire/devices/logs.blade.php:54-60 | the colour chain is red exactly when "error" occurs in the lower-cased message, yellow exactly when "warning" occurs and "error" does not, green exactly when neither occurs |
| `DeviceLogs.ErrorInAnyCase` | resources/views/livewire/devices/logs.blade.php:61 | "error" in any mix of cases at any position makes the message an Error |
| `DeviceLogs.WarningInAnyCase` | resources/views/livewire/devices/logs.blade.php:61-62 | "warning" in any case, with no "error" in any case, makes the message a Warning |
| `DeviceLogs.SeverityIgnoresCase` | resources/views/livewire/devices/logs.blade.php:54-62 | upper-casing a message does not change its severity |
| `DeviceLogs.BadgeColourMatchesSeverity` | resources/views/livewire/devices/logs.blade.php:54-62 | the badge colour (red, yellow, green) always agrees with the label |
| `DeviceLogs.DeviceStatusLabel` | resources/views/livewire/devices/logs.blade.php:67-70 | the status is the stamp's `wifi_status` when set, otherwise "Unknown", and never null; the dBm part is shown exactly when `wifi_rssi_level` is set, and then shows that value |
| `DeviceLogs.StatusLabelWithoutStamp` | resources/views/livewire/devices/logs.blade.php:67-70 | a missing or non-array status stamp shows "Unknown" and no dBm part |

## Left out

- The Eloquent relations and queries (`playlists()`, `playlist()`, `mirrorDevice()`): the device's playlists are a field holding a sequence in relation order, and `where('is_active', true)` is the function `ActivePlaylists`.
- `Playlist::isActiveNow` and the playlist's own `getNextPlaylistItem` are not part of this model: they are function parameters, evaluated for the current instant, and are taken to have no side effects the device's loop could observe.
- `$this->save()` in `resetUpdateFirmwareFlag` and the database write of a cleared plugin image: persistence is outside the model; only the in-memory update is modelled.
- The sleep-window computation (`getSleepModeEndsInSeconds`) is not part of this model: it is not defined in `app/Models/Device.php` and depends on the wall clock.
- Floating point: voltages are exact reals, so a voltage whose float percentage lands just below or above a .5 boundary may round differently in PHP. The int-versus-float type of the PHP result (0 versus 50.0) is not modelled.
- Devices.UpdateFirmware: on a non-empty response without an `update_firmware` key the source throws (PHP's "undefined array key" warning, which the framework turns into an `ErrorException`); the model returns false there.
- Devices.FirmwareUrl: on a non-empty response without a `firmware_url` key the source throws in the same way; the model returns null there.
- `proxy_cloud_response` is modelled as null or a decoded JSON object; a JSON scalar or list in that column, the renumbering of integer keys by `array_merge`, and the order of keys are not modelled.
- `Devices.FirmwareUrl` returns the entry as a JSON value; the coercion to PHP's `?string` return type is not modelled.
- `image_format` of a device that has a device model is not fixed by the tests; the model gives it the string of the format classified from that model.
- ImageGeneration.ParseFormat: the format enumeration is modelled with six cases (auto, BMP3 1-bit sRGB, PNG 1-bit, PNG 8-bit grayscale, PNG 8-bit 256 colours, PNG 2-bit 4 colours); any further formats of the enumeration are not modelled. Only the string `png_2bit_4c` is fixed by the tests; the other strings follow the same naming. The human-readable labels of the formats are not modelled.
- A device without a model takes only width, height, rotation and image format from its own columns, as the tests show; its colours, bit depth, scale factor, MIME type and offsets are always the defaults.
- A null width, height or rotation counts as the default in the cache rule. The tests only cover set values; a null column resolves to the default in the settings too.
- A plugin is either null or present; an unsaved plugin is not distinguished from a saved one.
- Rasterisation, listing and deleting cached files, and scanning the database are not part of this model; the cleanup only models which keys are active. Locking, grace periods and concurrency are not modelled.
- `log_message` is taken to be a string, and `strtolower`/`strtoupper` change ASCII letters only. Date formatting and the HTML markup of the log table are not modelled.
- `DeviceLogs.DeviceStatusLabel` returns the status and RSSI values; turning them into escaped text is not modelled.
