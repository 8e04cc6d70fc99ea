/** The decisions the display widgets make before drawing: the colour a reading gets from
    its schema thresholds, the text of the header, and the text and colour of the status
    bar. Fonts, coordinates and pixels are not modelled. */
module Widgets {
  import opened Wrappers
  import opened Text
  import opened Json

  datatype Color = White | Green | Yellow | Red | Cyan | Orange | Dim | Black

  /** How alarming a reading's colour is. */
  function Severity(c: Color): nat
  {
    match c
    case Green => 0
    case Yellow => 1
    case Red => 2
    case _ => 0
  }

  /** A schema threshold as the comparisons see it: a number (a boolean compares as 0 or 1),
      or none when the key is missing or null. */
  function Threshold(schema: Object, key: string): Option<real>
  {
    match Get(schema, key)
    case Some(JNum(x)) => Some(x)
    case Some(JBool(b)) => Some(if b then 1.0 else 0.0)
    case _ => None
  }

  /** `value_color`: white without a schema; red at or beyond a threshold; yellow within 10%
      of one; green otherwise. The upper threshold is checked before the lower one. */
  function ValueColor(value: real, schema: Object): (c: Color)
    ensures schema == [] ==> c == White
    ensures schema != [] ==> c in {Green, Yellow, Red}
  {
    if schema == [] then White
    else
      var above := Threshold(schema, "alert_above");
      var below := Threshold(schema, "alert_below");
      if above.Some? && value >= above.value then Red
      else if below.Some? && value <= below.value then Red
      else if above.Some? && value >= above.value * 0.9 then Yellow
      else if below.Some? && value <= below.value * 1.1 then Yellow
      else Green
  }

  /** Red is exactly "at or past a threshold", whatever the warning zones say. */
  lemma RedIsBreach(value: real, schema: Object)
    requires schema != []
    ensures ValueColor(value, schema) == Red <==>
      (Threshold(schema, "alert_above").Some? && value >= Threshold(schema, "alert_above").value)
      || (Threshold(schema, "alert_below").Some? && value <= Threshold(schema, "alert_below").value)
  {
  }

  /** Yellow is only ever inside a warning band next to a threshold, short of the threshold. */
  lemma YellowIsNearBreach(value: real, schema: Object)
    requires ValueColor(value, schema) == Yellow
    ensures var above := Threshold(schema, "alert_above");
      var below := Threshold(schema, "alert_below");
      (above.Some? && above.value * 0.9 <= value < above.value)
      || (below.Some? && below.value < value <= below.value * 1.1)
  {
  }

  /** The three schema colours split the readings exactly: red at or past a threshold, yellow
      in a warning band (within 10% of a threshold) short of any threshold, green elsewhere. */
  lemma ColorBands(value: real, schema: Object)
    requires schema != []
    ensures var above := Threshold(schema, "alert_above");
      var below := Threshold(schema, "alert_below");
      var red := (above.Some? && value >= above.value) || (below.Some? && value <= below.value);
      var band := (above.Some? && value >= above.value * 0.9) || (below.Some? && value <= below.value * 1.1);
      && (ValueColor(value, schema) == Red <==> red)
      && (ValueColor(value, schema) == Yellow <==> !red && band)
      && (ValueColor(value, schema) == Green <==> !red && !band)
  {
  }

  /** With only an upper threshold, a higher reading is never less alarming. */
  lemma UpperThresholdMonotone(v: real, v': real, schema: Object)
    requires schema != [] && Threshold(schema, "alert_below").None? && v <= v'
    ensures Severity(ValueColor(v, schema)) <= Severity(ValueColor(v', schema))
  {
  }

  /** With only a lower threshold, a lower reading is never less alarming. */
  lemma LowerThresholdMonotone(v: real, v': real, schema: Object)
    requires schema != [] && Threshold(schema, "alert_above").None? && v' <= v
    ensures Severity(ValueColor(v, schema)) <= Severity(ValueColor(v', schema))
  {
  }

  /** A schema without thresholds colours every reading green. */
  lemma NoThresholdsGreen(value: real, schema: Object)
    requires schema != [] && Threshold(schema, "alert_above").None? && Threshold(schema, "alert_below").None?
    ensures ValueColor(value, schema) == Green
  {
  }

  // ---------------------------------------------------------------------------
  // Header

  const HeaderNameLength: nat := 22
  const HeaderHeight: int := 34

  datatype Header = Header(title: string, badge: string, nextY: int)

  /** `draw_header`: the name cut to 22 characters, the last dotted segment of the type as
      a badge (nothing for an empty type), and the y where the content below starts. */
  function DrawHeader(name: string, deviceType: string, y: int): (h: Header)
    ensures |h.title| == (if |name| < HeaderNameLength then |name| else HeaderNameLength) && h.title <= name
    ensures '.' !in h.badge
    ensures deviceType == "" ==> h.badge == ""
    ensures '.' !in deviceType ==> h.badge == deviceType
    ensures '.' in deviceType ==> exists p :: deviceType == p + ['.'] + h.badge
    ensures h.nextY == y + HeaderHeight
  {
    Header(Prefix(name, HeaderNameLength), if deviceType == "" then "" else LastSegment(deviceType, '.'), y + HeaderHeight)
  }

  /** The badge is the part after the last dot: a type written as a dotted path gets its
      last component back. */
  lemma BadgeOfDottedType(p: string, last: string, y: int)
    requires '.' !in last
    ensures DrawHeader("", p + ['.'] + last, y).badge == last
  {
    SplitLastConcat(p, '.', last);
  }

  // ---------------------------------------------------------------------------
  // Status bar

  /** The statuses shown in green. */
  predicate SteadyStatus(status: string)
  {
    status in {"stable", "running", "idle"}
  }

  /** `draw_status_bar`: alerts, when there are any, replace the status with an alert line. */
  function StatusBar(status: string, alerts: seq<string>): (r: (string, Color))
    ensures alerts != [] ==> r == ("ALERT: " + Unwords(alerts), Red)
    ensures alerts == [] ==> r.0 == Upper(status)
    ensures alerts == [] ==> (r.1 == Green <==> SteadyStatus(status))
    ensures alerts == [] ==> r.1 in {Green, Yellow}
  {
    if alerts != [] then ("ALERT: " + Unwords(alerts), Red)
    else (Upper(status), if SteadyStatus(status) then Green else Yellow)
  }
}
