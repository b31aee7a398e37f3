/**
 * The room severity classifier of the room card: the `Status` of a
 * (temperature, humidity) reading and the colour and badge variant each
 * status is drawn with.
 */
module RoomCard {
  import opened Wrappers

  /** The three severity tiers, ordered Safe < Warning < Critical. */
  datatype Status = Safe | Warning | Critical

  /** The position of a status in the order Safe < Warning < Critical. */
  function Rank(s: Status): (n: nat)
    ensures n <= 2
    ensures n == 0 <==> s == Safe
    ensures n == 2 <==> s == Critical
  {
    match s
    case Safe => 0
    case Warning => 1
    case Critical => 2
  }

  /** The worse of two statuses. */
  function Worse(a: Status, b: Status): (r: Status)
    ensures r == a || r == b
    ensures Rank(r) >= Rank(a) && Rank(r) >= Rank(b)
  {
    if Rank(a) >= Rank(b) then a else b
  }

  /**
   * Reference rule for one metric, given its four thresholds: critical
   * outside [lowCritical, highCritical], safe inside [lowSafe, highSafe],
   * warning in between.
   */
  function MetricStatus(v: real, lowCritical: real, lowSafe: real, highSafe: real, highCritical: real): Status
    requires lowCritical <= lowSafe <= highSafe <= highCritical
  {
    if v < lowCritical || v > highCritical then Critical
    else if lowSafe <= v <= highSafe then Safe
    else Warning
  }

  function TemperatureStatus(temperature: real): Status {
    MetricStatus(temperature, 18.0, 20.0, 26.0, 28.0)
  }

  function HumidityStatus(humidity: real): Status {
    MetricStatus(humidity, 35.0, 40.0, 60.0, 65.0)
  }

  // The four flags the classifier computes, exactly as written in the card.

  predicate TempCritical(temperature: real) {
    temperature < 18.0 || temperature > 28.0
  }

  predicate TempWarning(temperature: real) {
    (temperature >= 18.0 && temperature < 20.0) || (temperature > 26.0 && temperature <= 28.0)
  }

  predicate HumidCritical(humidity: real) {
    humidity < 35.0 || humidity > 65.0
  }

  predicate HumidWarning(humidity: real) {
    (humidity >= 35.0 && humidity < 40.0) || (humidity > 60.0 && humidity <= 65.0)
  }

  /**
   * `getStatus`: a critical flag on either metric wins, then a warning
   * flag, otherwise safe. The result is the worse of the two per-metric
   * statuses, and it is critical or safe exactly on the bands below.
   */
  function GetStatus(temperature: real, humidity: real): (r: Status)
    ensures r == Worse(TemperatureStatus(temperature), HumidityStatus(humidity))
    ensures r == Critical <==> temperature < 18.0 || temperature > 28.0 || humidity < 35.0 || humidity > 65.0
    ensures r == Safe <==> 20.0 <= temperature <= 26.0 && 40.0 <= humidity <= 60.0
  {
    if TempCritical(temperature) || HumidCritical(humidity) then Critical
    else if TempWarning(temperature) || HumidWarning(humidity) then Warning
    else Safe
  }

  /**
   * For each metric the critical flag, the warning flag and the safe range
   * are mutually exclusive and between them cover every value, and they
   * agree with the reference per-metric rule.
   */
  lemma TemperatureBandsPartition(t: real)
    ensures TempCritical(t) <==> TemperatureStatus(t) == Critical
    ensures TempWarning(t) <==> TemperatureStatus(t) == Warning
    ensures !TempCritical(t) && !TempWarning(t) <==> 20.0 <= t <= 26.0
    ensures !(TempCritical(t) && TempWarning(t))
  {
  }

  lemma HumidityBandsPartition(h: real)
    ensures HumidCritical(h) <==> HumidityStatus(h) == Critical
    ensures HumidWarning(h) <==> HumidityStatus(h) == Warning
    ensures !HumidCritical(h) && !HumidWarning(h) <==> 40.0 <= h <= 60.0
    ensures !(HumidCritical(h) && HumidWarning(h))
  {
  }

  /** Temperature thresholds fall on the safer side; any safe humidity is neutral. */
  lemma TemperatureBoundaries(h: real)
    requires 40.0 <= h <= 60.0
    ensures GetStatus(18.0, h) == Warning && GetStatus(28.0, h) == Warning
    ensures GetStatus(20.0, h) == Safe && GetStatus(26.0, h) == Safe
    ensures GetStatus(17.999, h) == Critical && GetStatus(28.001, h) == Critical
  {
  }

  /** Humidity thresholds fall on the safer side; any safe temperature is neutral. */
  lemma HumidityBoundaries(t: real)
    requires 20.0 <= t <= 26.0
    ensures GetStatus(t, 35.0) == Warning && GetStatus(t, 65.0) == Warning
    ensures GetStatus(t, 40.0) == Safe && GetStatus(t, 60.0) == Safe
    ensures GetStatus(t, 34.999) == Critical && GetStatus(t, 65.001) == Critical
  {
  }

  /** `getStatusColor`: the colour class of the bar on top of the card. */
  function GetStatusColor(status: Status): (c: string)
    ensures ColorStatus(c) == Some(status)
  {
    match status
    case Safe => "bg-green-500"
    case Warning => "bg-yellow-500"
    case Critical => "bg-red-500"
  }

  /** The status a colour class stands for, if any. */
  function ColorStatus(c: string): Option<Status> {
    if c == "bg-green-500" then Some(Safe)
    else if c == "bg-yellow-500" then Some(Warning)
    else if c == "bg-red-500" then Some(Critical)
    else None
  }

  /** The badge variants `'default' | 'secondary' | 'destructive'`. */
  datatype BadgeVariant = Default | Secondary | Destructive

  /** `getStatusBadgeVariant`: the badge variant of a status. */
  function GetStatusBadgeVariant(status: Status): (v: BadgeVariant)
    ensures VariantStatus(v) == status
  {
    match status
    case Safe => Default
    case Warning => Secondary
    case Critical => Destructive
  }

  /** The status a badge variant stands for. */
  function VariantStatus(v: BadgeVariant): Status {
    match v
    case Default => Safe
    case Secondary => Warning
    case Destructive => Critical
  }

  /** Distinct statuses are drawn with distinct colours and distinct badges. */
  lemma StatusPresentationInjective(s1: Status, s2: Status)
    requires s1 != s2
    ensures GetStatusColor(s1) != GetStatusColor(s2)
    ensures GetStatusBadgeVariant(s1) != GetStatusBadgeVariant(s2)
  {
  }
}
