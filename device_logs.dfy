/** The two decisions the device-log page makes per log entry: the
    severity badge (label and colour) derived from the message text, and the
    device-status label taken from the entry's status stamp. */
module DeviceLogs {
  import opened Php

  /** PHP's `strtolower` on one character: ASCII letters only. */
  function LowerChar(c: char): char {
    if 'A' <= c <= 'Z' then (c as int + 32) as char else c
  }

  /** PHP's `strtoupper` on one character: ASCII letters only. */
  function UpperChar(c: char): char {
    if 'a' <= c <= 'z' then (c as int - 32) as char else c
  }

  /** PHP's `strtolower`: same length, no ASCII capital left, and every
      character that is not an ASCII capital kept as it was. */
  function Lower(s: string): (r: string)
    ensures |r| == |s| && forall i :: 0 <= i < |s| ==> r[i] == LowerChar(s[i])
    ensures forall i :: 0 <= i < |r| ==> !('A' <= r[i] <= 'Z')
    ensures forall i :: 0 <= i < |s| && !('A' <= s[i] <= 'Z') ==> r[i] == s[i]
  {
    seq(|s|, i requires 0 <= i < |s| => LowerChar(s[i]))
  }

  /** PHP's `strtoupper`, used only to state that the severity ignores case. */
  function Upper(s: string): string {
    seq(|s|, i requires 0 <= i < |s| => UpperChar(s[i]))
  }

  /** Lower-casing commutes with taking a slice. */
  lemma LowerSlice(s: string, i: int, j: int)
    requires 0 <= i <= j <= |s|
    ensures Lower(s)[i..j] == Lower(s[i..j])
  {
  }

  /** Lower-casing an upper-cased string gives the lower-cased original. */
  lemma LowerOfUpper(s: string)
    ensures Lower(Upper(s)) == Lower(s)
  {
  }

  /** PHP's `str_contains($haystack, $needle)`. */
  function Contains(haystack: string, needle: string): (found: bool)
    ensures needle == [] ==> found
    ensures found ==> |needle| <= |haystack|
    decreases |haystack|
  {
    (|needle| <= |haystack| && haystack[..|needle|] == needle)
    || (|haystack| > 0 && Contains(haystack[1..], needle))
  }

  /** The needle occurs in the haystack starting at position `i`. */
  predicate OccursAt(haystack: string, needle: string, i: int) {
    0 <= i && i + |needle| <= |haystack| && haystack[i..i + |needle|] == needle
  }

  /** `Contains` holds exactly when the needle occurs at some position. */
  lemma {:induction false} ContainsIff(haystack: string, needle: string)
    ensures Contains(haystack, needle) <==> exists i :: OccursAt(haystack, needle, i)
    decreases |haystack|
  {
    if |haystack| > 0 {
      var tail := haystack[1..];
      ContainsIff(tail, needle);
      if |needle| <= |haystack| && haystack[..|needle|] == needle {
        assert OccursAt(haystack, needle, 0);
      }
      if Contains(tail, needle) {
        var i :| OccursAt(tail, needle, i);
        assert haystack[i + 1..i + 1 + |needle|] == tail[i..i + |needle|];
        assert OccursAt(haystack, needle, i + 1);
      }
      if exists i :: OccursAt(haystack, needle, i) {
        var i :| OccursAt(haystack, needle, i);
        if i > 0 {
          assert tail[i - 1..i - 1 + |needle|] == haystack[i..i + |needle|];
          assert OccursAt(tail, needle, i - 1);
        } else {
          assert haystack[..|needle|] == needle;
        }
      }
    } else {
      if Contains(haystack, needle) {
        assert OccursAt(haystack, needle, 0);
      }
      if exists i :: OccursAt(haystack, needle, i) {
        var i :| OccursAt(haystack, needle, i);
        assert haystack[..|needle|] == needle;
      }
    }
  }

  /** The word occurs at position `i` of the message in some mix of cases. */
  predicate OccursAtAnyCase(message: string, word: string, i: int) {
    0 <= i && i + |word| <= |message| && Lower(message[i..i + |word|]) == word
  }

  datatype Severity = Error | Warning | Info
  datatype BadgeColour = Red | Yellow | Green

  /** The badge label: "error" wins over "warning", anything else is Info;
      the message is lower-cased before both checks. */
  function LogSeverity(message: string): (sev: Severity)
    ensures sev == Error <==> Contains(Lower(message), "error")
    ensures sev == Warning <==> !Contains(Lower(message), "error") && Contains(Lower(message), "warning")
    ensures sev == Info <==> !Contains(Lower(message), "error") && !Contains(Lower(message), "warning")
  {
    var lower := Lower(message);
    if Contains(lower, "error") then Error
    else if Contains(lower, "warning") then Warning
    else Info
  }

  /** The badge colour classes, chosen by their own chain of conditions. */
  function LogBadgeColour(message: string): (colour: BadgeColour)
    ensures colour == Red <==> exists i :: OccursAt(Lower(message), "error", i)
    ensures colour == Yellow <==>
              (forall i :: !OccursAt(Lower(message), "error", i)) && exists i :: OccursAt(Lower(message), "warning", i)
    ensures colour == Green <==>
              (forall i :: !OccursAt(Lower(message), "error", i)) && forall i :: !OccursAt(Lower(message), "warning", i)
  {
    ContainsIff(Lower(message), "error");
    ContainsIff(Lower(message), "warning");
    if Contains(Lower(message), "error") then Red
    else if Contains(Lower(message), "warning") then Yellow
    else Green
  }

  function SeverityColour(sev: Severity): BadgeColour {
    match sev
    case Error => Red
    case Warning => Yellow
    case Info => Green
  }

  /** The colour always agrees with the label. */
  lemma BadgeColourMatchesSeverity(message: string)
    ensures LogBadgeColour(message) == SeverityColour(LogSeverity(message))
  {
  }

  /** "error" in any mix of cases, anywhere in the message, makes it an Error. */
  lemma ErrorInAnyCase(message: string, i: int)
    requires OccursAtAnyCase(message, "error", i)
    ensures LogSeverity(message) == Error
  {
    LowerSlice(message, i, i + 5);
    assert OccursAt(Lower(message), "error", i);
    ContainsIff(Lower(message), "error");
  }

  /** A message without "error" in any case but with "warning" in some case is a Warning. */
  lemma WarningInAnyCase(message: string, i: int)
    requires OccursAtAnyCase(message, "warning", i)
    requires forall j :: !OccursAtAnyCase(message, "error", j)
    ensures LogSeverity(message) == Warning
  {
    var lower := Lower(message);
    LowerSlice(message, i, i + 7);
    assert OccursAt(lower, "warning", i);
    ContainsIff(lower, "warning");
    ContainsIff(lower, "error");
    if Contains(lower, "error") {
      var j :| OccursAt(lower, "error", j);
      LowerSlice(message, j, j + 5);
      assert OccursAtAnyCase(message, "error", j);
      assert false;
    }
  }

  /** Upper-casing a message does not change its severity. */
  lemma SeverityIgnoresCase(message: string)
    ensures LogSeverity(Upper(message)) == LogSeverity(message)
  {
    LowerOfUpper(message);
  }

  /** What the status column shows: the wifi status, or "Unknown" when it is
      not set, and the RSSI in dBm only when that is set. */
  datatype StatusLabel = StatusLabel(status: Json, rssiDbm: Option<Json>)

  /** `$log_entry['device_status_stamp']` as an array to index into; a
      missing or non-array stamp has no keys, which is how `??` and `isset`
      read through it without complaint. */
  function StatusStamp(logEntry: map<string, Json>): map<string, Json> {
    match Get(logEntry, "device_status_stamp")
    case JObject(stamp) => stamp
    case _ => map[]
  }

  /** The status label of a log entry. */
  function DeviceStatusLabel(logEntry: map<string, Json>): (shown: StatusLabel)
    ensures shown.status != JNull
    ensures var stamp := StatusStamp(logEntry);
            (IsSet(stamp, "wifi_status") ==> shown.status == stamp["wifi_status"])
            && (!IsSet(stamp, "wifi_status") ==> shown.status == JString("Unknown"))
    ensures var stamp := StatusStamp(logEntry);
            (shown.rssiDbm.Some? <==> IsSet(stamp, "wifi_rssi_level"))
            && (shown.rssiDbm.Some? ==> shown.rssiDbm.value == stamp["wifi_rssi_level"])
  {
    var stamp := StatusStamp(logEntry);
    StatusLabel(
      if IsSet(stamp, "wifi_status") then stamp["wifi_status"] else JString("Unknown"),
      if IsSet(stamp, "wifi_rssi_level") then Some(stamp["wifi_rssi_level"]) else None)
  }

  /** A stamp that is not an array shows "Unknown" and no RSSI. */
  lemma StatusLabelWithoutStamp(logEntry: map<string, Json>)
    requires !Get(logEntry, "device_status_stamp").JObject?
    ensures DeviceStatusLabel(logEntry) == StatusLabel(JString("Unknown"), None)
  {
  }
}
