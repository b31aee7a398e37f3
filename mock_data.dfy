/**
 * The mock sensor feed: the room and chart-point records, the seed
 * snapshot, one simulated update step of every room and the 24-hour
 * history series. Every `Math.random()` draw is an explicit `Random`
 * argument and every `new Date()` an explicit millisecond timestamp.
 */
module MockData {
  import opened JsBuiltins

  /** A value of `Math.random()`: a real in [0, 1). */
  type Random = r: real | 0.0 <= r < 1.0

  /** One room's reading; `lastUpdated` is a timestamp in milliseconds. */
  datatype RoomData = RoomData(id: string, name: string, temperature: real, humidity: real, lastUpdated: int)

  /** One point of the temperature trend chart: an hour label and one temperature per room. */
  datatype ChartDataPoint = ChartDataPoint(time: string, roomA: real, roomB: real, roomC: real, roomD: real)

  /** The two draws one room consumes in an update, in the order they are drawn. */
  datatype RoomDraw = RoomDraw(tempDraw: Random, humidDraw: Random)

  // Hard clamp bounds of the simulator.
  const MinTemperature: real := 18.0
  const MaxTemperature: real := 32.0
  const MinHumidity: real := 30.0
  const MaxHumidity: real := 80.0

  function Abs(x: real): real {
    if x < 0.0 then -x else x
  }

  predicate TemperatureInBounds(t: real) {
    MinTemperature <= t <= MaxTemperature
  }

  predicate HumidityInBounds(h: real) {
    MinHumidity <= h <= MaxHumidity
  }

  predicate InBounds(room: RoomData) {
    TemperatureInBounds(room.temperature) && HumidityInBounds(room.humidity)
  }

  predicate AllInBounds(rooms: seq<RoomData>) {
    forall i :: 0 <= i < |rooms| ==> InBounds(rooms[i])
  }

  /** `getInitialRoomData`: the seed snapshot, every room stamped with `now`. */
  function GetInitialRoomData(now: int): (rooms: seq<RoomData>)
    ensures |rooms| == 4
    ensures forall i :: 0 <= i < |rooms| ==> rooms[i].lastUpdated == now
  {
    [ RoomData("room-a", "Room A - Small Animals", 24.5, 55.0, now),
      RoomData("room-b", "Room B - Recovery Ward", 28.2, 68.0, now),
      RoomData("room-c", "Room C - Cats Only", 22.8, 52.0, now),
      RoomData("room-d", "Room D - Large Dogs", 25.1, 58.0, now) ]
  }

  /** The seed rooms carry the distinct ids room-a .. room-d, and all of them lie within the clamp bounds. */
  lemma InitialRoomsShape(now: int)
    ensures var rooms := GetInitialRoomData(now);
      && (forall i, j :: 0 <= i < j < |rooms| ==> rooms[i].id != rooms[j].id)
      && [rooms[0].id, rooms[1].id, rooms[2].id, rooms[3].id] == ["room-a", "room-b", "room-c", "room-d"]
      && AllInBounds(rooms)
  {
  }

  /** `(Math.random() - 0.5) * 0.3`: a temperature step in [-0.15, 0.15), zero for the draw 0.5. */
  function TempChange(r: Random): (c: real)
    ensures -0.15 <= c < 0.15
    ensures c == 0.0 <==> r == 0.5
  {
    (r - 0.5) * 0.3
  }

  /** `(Math.random() - 0.5) * 2`: a humidity step in [-1, 1), zero for the draw 0.5. */
  function HumidChange(r: Random): (c: real)
    ensures -1.0 <= c < 1.0
    ensures c == 0.0 <==> r == 0.5
  {
    (r - 0.5) * 2.0
  }

  /**
   * `Math.max(lo, Math.min(hi, v))`: the point of [lo, hi] nearest to `v`;
   * it moves a value of [lo, hi] by no more than the value itself moved.
   */
  function Clamp(lo: real, hi: real, v: real): (r: real)
    requires lo <= hi
    ensures lo <= r <= hi
    ensures lo <= v <= hi ==> r == v
    ensures v < lo ==> r == lo
    ensures v > hi ==> r == hi
  {
    Max(lo, Min(hi, v))
  }

  lemma ClampStep(lo: real, hi: real, x: real, c: real)
    requires lo <= x <= hi
    ensures Abs(Clamp(lo, hi, x + c) - x) <= Abs(c)
  {
  }

  /**
   * The update of one room: step both readings, clamp them into the hard
   * bounds, keep the id and name and restamp the reading. A reading that
   * was in bounds moves by at most the step's half-width, and not at all
   * for the draw 0.5.
   */
  function UpdateRoom(room: RoomData, draw: RoomDraw, now: int): (r: RoomData)
    ensures r.id == room.id && r.name == room.name && r.lastUpdated == now
    ensures InBounds(r)
    ensures TemperatureInBounds(room.temperature) ==> Abs(r.temperature - room.temperature) <= 0.15
    ensures HumidityInBounds(room.humidity) ==> Abs(r.humidity - room.humidity) <= 1.0
    ensures TemperatureInBounds(room.temperature) && draw.tempDraw == 0.5 ==> r.temperature == room.temperature
    ensures HumidityInBounds(room.humidity) && draw.humidDraw == 0.5 ==> r.humidity == room.humidity
  {
    var newTemp := room.temperature + TempChange(draw.tempDraw);
    var newHumid := room.humidity + HumidChange(draw.humidDraw);
    room.(temperature := Clamp(MinTemperature, MaxTemperature, newTemp),
          humidity := Clamp(MinHumidity, MaxHumidity, newHumid),
          lastUpdated := now)
  }

  /**
   * `updateRoomData`: every room updated on its own draws. The list keeps
   * its length and the order, ids and names of its rooms, and every
   * reading ends up within the clamp bounds whatever it was before.
   */
  function UpdateRoomData(rooms: seq<RoomData>, draws: seq<RoomDraw>, now: int): (r: seq<RoomData>)
    requires |draws| == |rooms|
    ensures |r| == |rooms|
    ensures forall i :: 0 <= i < |r| ==> r[i].id == rooms[i].id && r[i].name == rooms[i].name && r[i].lastUpdated == now
    ensures forall i :: 0 <= i < |r| ==> r[i] == UpdateRoom(rooms[i], draws[i], now)
    ensures AllInBounds(r)
  {
    seq(|rooms|, i requires 0 <= i < |rooms| => UpdateRoom(rooms[i], draws[i], now))
  }

  /**
   * The snapshot after one update per batch of draws (batch j restamped
   * with stamps[j]): the rooms keep their ids and names, and once at least
   * one update has happened every reading is within the clamp bounds.
   */
  function Simulate(rooms: seq<RoomData>, batches: seq<seq<RoomDraw>>, stamps: seq<int>): (r: seq<RoomData>)
    requires |stamps| == |batches|
    requires forall j :: 0 <= j < |batches| ==> |batches[j]| == |rooms|
    ensures |r| == |rooms|
    ensures forall i :: 0 <= i < |r| ==> r[i].id == rooms[i].id && r[i].name == rooms[i].name
    ensures |batches| > 0 || AllInBounds(rooms) ==> AllInBounds(r)
    decreases |batches|
  {
    if batches == [] then rooms
    else Simulate(UpdateRoomData(rooms, batches[0], stamps[0]), batches[1..], stamps[1..])
  }

  // ---------------------------------------------------------------------
  // The history series.

  const MsPerHour: int := 60 * 60 * 1000

  /** Number of points of the history series (hours 24 down to 0 before now). */
  const HistoryPoints: nat := 25

  /**
   * `new Date(t).getHours()` in a time zone at a fixed offset from UTC
   * (`utcOffset` milliseconds).
   */
  function HourOf(t: int, utcOffset: int): (h: int)
    ensures 0 <= h < 24
  {
    ((t + utcOffset) / MsPerHour) % 24
  }

  /** `${hour.toString().padStart(2, '0')}:00`. */
  function HourLabel(hour: int): string
    requires 0 <= hour < 24
  {
    PadStart(NatToString(hour), 2, '0') + ":00"
  }

  /** The hour a label of the form `HH:00` names, or -1 for any other string. */
  function LabelHour(s: string): (h: int)
    ensures -1 <= h < 100
  {
    if |s| == 5 && IsDigit(s[0]) && IsDigit(s[1]) && s[2..] == ":00"
    then 10 * DigitValue(s[0]) + DigitValue(s[1])
    else -1
  }

  /**
   * Every label is the hour zero-padded to two digits followed by `:00`,
   * five characters in all, and reads back as its hour, so distinct hours
   * get distinct labels.
   */
  lemma HourLabelShape(hour: int)
    requires 0 <= hour < 24
    ensures HourLabel(hour) == [DigitChar(hour / 10), DigitChar(hour % 10), ':', '0', '0']
    ensures |HourLabel(hour)| == 5
    ensures LabelHour(HourLabel(hour)) == hour
  {
    var digits := NatToString(hour);
    if hour >= 10 {
      assert digits == NatToString(hour / 10) + [DigitChar(hour % 10)];
    }
    var s := HourLabel(hour);
    assert s == [DigitChar(hour / 10), DigitChar(hour % 10), ':', '0', '0'];
    assert s[2..] == ":00";
  }

  /** The four room temperatures of one chart point (the diurnal curve and noise are not modelled). */
  datatype RoomTemps = RoomTemps(roomA: real, roomB: real, roomC: real, roomD: real)

  /** The timestamp of the k-th point of the series: 24 - k hours before `now`. */
  function SampleTime(now: int, k: int): int {
    now - (24 - k) * MsPerHour
  }

  /**
   * `generateHistoricalData`: 25 points, oldest first, point k taken
   * 24 - k hours before `now`, labelled with that time's hour and carrying
   * the k-th set of room temperatures.
   */
  method GenerateHistoricalData(now: int, utcOffset: int, temps: seq<RoomTemps>)
    returns (data: seq<ChartDataPoint>)
    requires |temps| == HistoryPoints
    ensures |data| == HistoryPoints
    ensures forall k :: 0 <= k < |data| ==>
      data[k] == ChartDataPoint(HourLabel(HourOf(SampleTime(now, k), utcOffset)),
                                temps[k].roomA, temps[k].roomB, temps[k].roomC, temps[k].roomD)
    ensures forall k :: 0 <= k < |data| ==>
      |data[k].time| == 5 && LabelHour(data[k].time) == (HourOf(now, utcOffset) + k) % 24
  {
    data := [];
    var i := 24;
    while i >= 0
      invariant -1 <= i <= 24
      invariant |data| == 24 - i
      invariant forall k :: 0 <= k < |data| ==>
        data[k] == ChartDataPoint(HourLabel(HourOf(SampleTime(now, k), utcOffset)),
                                  temps[k].roomA, temps[k].roomB, temps[k].roomC, temps[k].roomD)
    {
      var time := now - i * 60 * 60 * 1000;
      assert time == SampleTime(now, 24 - i);
      var hour := HourOf(time, utcOffset);
      var t := temps[24 - i];
      data := data + [ChartDataPoint(HourLabel(hour), t.roomA, t.roomB, t.roomC, t.roomD)];
      i := i - 1;
    }
    forall k | 0 <= k < |data|
      ensures |data[k].time| == 5 && LabelHour(data[k].time) == (HourOf(now, utcOffset) + k) % 24
    {
      assert data[k].time == HourLabel(HourOf(SampleTime(now, k), utcOffset));
      SeriesLabel(now, utcOffset, k);
    }
  }

  /** Division by the hour length: the quotient and remainder are unique. */
  lemma HourDivUnique(y: int, q: int, r: int)
    requires y == q * MsPerHour + r && 0 <= r < MsPerHour
    ensures y / MsPerHour == q && y % MsPerHour == r
  {
  }

  /** Division by the day length in hours: the quotient and remainder are unique. */
  lemma DayDivUnique(y: int, q: int, r: int)
    requires y == q * 24 + r && 0 <= r < 24
    ensures y / 24 == q && y % 24 == r
  {
  }

  /** Going back `i` hours moves the hour of the day back by `i`, modulo 24. */
  lemma HourOfHoursBefore(t: int, utcOffset: int, i: int)
    ensures HourOf(t - i * MsPerHour, utcOffset) == (HourOf(t, utcOffset) - i) % 24
  {
    var x := t + utcOffset;
    var q := x / MsPerHour;
    HourDivUnique(x - i * MsPerHour, q - i, x % MsPerHour);
    DayDivUnique(q - i, (q / 24) + ((q % 24 - i) / 24), (q % 24 - i) % 24);
    DayDivUnique(q % 24 - i, (q % 24 - i) / 24, (q % 24 - i) % 24);
  }

  /**
   * The series is oldest first and hourly: point k is labelled with the
   * hour 24 - k hours before now, each point's hour follows the previous
   * one's, and the first and last labels both show the current hour.
   */
  lemma SeriesHours(now: int, utcOffset: int, k: int)
    requires 0 <= k < HistoryPoints
    ensures HourOf(SampleTime(now, k), utcOffset) == (HourOf(now, utcOffset) + k) % 24
    ensures k + 1 < HistoryPoints ==>
      HourOf(SampleTime(now, k + 1), utcOffset) == (HourOf(SampleTime(now, k), utcOffset) + 1) % 24
    ensures HourOf(SampleTime(now, HistoryPoints - 1), utcOffset) == HourOf(now, utcOffset)
    ensures HourOf(SampleTime(now, 0), utcOffset) == HourOf(now, utcOffset)
  {
    var h := HourOf(now, utcOffset);
    HourOfHoursBefore(now, utcOffset, 24 - k);
    DayDivUnique(h + k - 24, (h + k) / 24 - 1, (h + k) % 24);
    HourOfHoursBefore(now, utcOffset, 0);
    HourOfHoursBefore(now, utcOffset, 24);
    DayDivUnique(h - 24, -1, h);
    if k + 1 < HistoryPoints {
      HourOfHoursBefore(now, utcOffset, 24 - (k + 1));
      DayDivUnique(h + k + 1 - 24, (h + k + 1) / 24 - 1, (h + k + 1) % 24);
      DayDivUnique(h + k + 1, (h + k) / 24 + ((h + k) % 24 + 1) / 24, ((h + k) % 24 + 1) % 24);
    }
  }

  /** The label of point k is five characters and names the hour k hours after the current hour, modulo 24. */
  lemma SeriesLabel(now: int, utcOffset: int, k: int)
    requires 0 <= k < HistoryPoints
    ensures var s := HourLabel(HourOf(SampleTime(now, k), utcOffset));
      |s| == 5 && LabelHour(s) == (HourOf(now, utcOffset) + k) % 24
  {
    SeriesHours(now, utcOffset, k);
    HourLabelShape(HourOf(SampleTime(now, k), utcOffset));
  }
}
