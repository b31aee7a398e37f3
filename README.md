# PawGuard climate core in Dafny

PawGuard watches the climate of the rooms of a veterinary clinic. Each room has a
temperature (°C) and a relative humidity (%). The core has three parts:

- **Classifier** (`RoomCard`, `room_card.dfy`). It maps a reading to `Safe`, `Warning` or
  `Critical`. The temperature bands are 18/20/26/28 and the humidity bands are
  35/40/60/65. A critical metric wins over a warning one. It also gives the colour class
  and badge variant each status is drawn with.
- **Mock sensor feed** (`MockData`, `mock_data.dfy`).
  - The room and chart-point records.
  - The four-room seed snapshot.
  - The update step: each reading takes a small random step and is then clamped into
    [18, 32] °C and [30, 80] %.
  - The 25-point hourly history series with `HH:00` labels.
- **Dashboard tick** (`App`, `app.dfy`). A `Monitor` object holds the current snapshot and
  the alert count. Each `Tick` replaces the snapshot with its update and recomputes the
  count from the new snapshot.

`JsBuiltins` (`js_builtins.dfy`) restates the JavaScript built-ins these parts use:
`Math.max`, `Math.min`, `Number.prototype.toString` and `String.prototype.padStart`.
`Wrappers` holds an `Option` type.

Modelling choices:

- Readings are Dafny `real`s.
- Every `Math.random()` value is an explicit argument of the subset type
  `Random = r: real | 0.0 <= r < 1.0`. One room consumes a `RoomDraw`: first the
  temperature draw, then the humidity draw.
- The clock is an explicit millisecond timestamp `now`. The `new Date()` calls made in one
  synchronous step (building the seed, one update of all rooms) share one `now`.
- `getHours()` is `HourOf(t, utcOffset)`, the hour of the day at a fixed offset from UTC.
- `Monitor.Valid()` is an invariant of the model, not a check in the code. It says the
  alert count matches the snapshot and every reading is inside the clamp bounds.
  - The constructor establishes it: the seed data has exactly one critical room, which
    matches the hard-coded initial count of 1, and every seed reading is in bounds.
  - Every `Tick` re-establishes it.

The tick's comment and its code disagree:

- The comment at `pawguard/app/App.tsx:26` says the count is of "critical/warning" rooms.
- The filter at `pawguard/app/App.tsx:27-31` tests only the critical bands.
- The model follows the filter: `AlertCount` counts critical rooms only, and
  `CriticalReadingIsCriticalStatus` proves that warning rooms are never counted.

## Model

| member | source | states |
|---|---|---|
| `RoomCard.TempCritical` | pawguard/app/components/RoomCard.tsx:16 | The temperature critical flag: below 18 or above 28. |
| `RoomCard.TempWarning` | pawguard/app/components/RoomCard.tsx:17 | The temperature warning flag: in [18, 20) or in (26, 28]. |
| `RoomCard.HumidCritical` | pawguard/app/components/RoomCard.tsx:18 | The humidity critical flag: below 35 or above 65. |
| `RoomCard.HumidWarning` | pawguard/app/components/RoomCard.tsx:19 | The humidity warning flag: in [35, 40) or in (60, 65]. |
| `RoomCard.GetStatus` | pawguard/app/components/RoomCard.tsx:14-24 | The status is the worse of the per-metric statuses under Safe < Warning < Critical. It is critical exactly when temperature < 18 or > 28, or humidity < 35 or > 65. It is safe exactly when temperature is in [20, 26] and humidity is in [40, 60]. |
| `RoomCard.TemperatureBandsPartition` | pawguard/app/components/RoomCard.tsx:16-17 | The temperature critical flag, the warning flag and the safe range [20, 26] are mutually exclusive and cover every value. They agree with the reference per-metric rule. |
| `RoomCard.HumidityBandsPartition` | pawguard/app/components/RoomCard.tsx:18-19 | The same partition for humidity, with the safe range [40, 60]. |
| `RoomCard.TemperatureBoundaries` | pawguard/app/components/RoomCard.tsx:16-17 | With a safe humidity: 18 and 28 are warning, 20 and 26 are safe, and 17.999 and 28.001 are critical. Boundaries fall on the safer side. |
| `RoomCard.HumidityBoundaries` | pawguard/app/components/RoomCard.tsx:18-19 | With a safe temperature: 35 and 65 are warning, 40 and 60 are safe, and 34.999 and 65.001 are critical. |
| `RoomCard.GetStatusColor` | pawguard/app/components/RoomCard.tsx:26-35 | Total over the three statuses. The colour class reads back, through `ColorStatus`, as the status it was drawn for. |
| `RoomCard.GetStatusBadgeVariant` | pawguard/app/components/RoomCard.tsx:37-46 | Total over the three statuses. The variant reads back, through `VariantStatus`, as its status. |
| `RoomCard.StatusPresentationInjective` | pawguard/app/components/RoomCard.tsx:26-46 | Distinct statuses get distinct colours and distinct badge variants. |
| `JsBuiltins.Max` | pawguard/app/utils/mockData.ts:87-88 | `Math.max` returns one of its arguments, and no argument is larger. |
| `JsBuiltins.Min` | pawguard/app/utils/mockData.ts:87-88 | `Math.min` returns one of its arguments, and no argument is smaller. |
| `JsBuiltins.NatToString` | pawguard/app/utils/mockData.ts:31 | `hour.toString()` is a non-empty string of decimal digits with no leading zero. It reads back as the number. It has one digit below 10 and two digits from 10 to 99. |
| `JsBuiltins.PadStart` | pawguard/app/utils/mockData.ts:31 | `padStart` leaves a long enough string alone. Otherwise it prefixes pad characters up to the width, and the original string stays as the suffix. |
| `MockData.GetInitialRoomData` | pawguard/app/utils/mockData.ts:43-74 | The seed snapshot has four rooms, all stamped with the current time. |
| `MockData.InitialRoomsShape` | pawguard/app/utils/mockData.ts:43-74 | The seed rooms carry the distinct ids room-a, room-b, room-c and room-d, in that order, and every seed reading is inside the clamp bounds. |
| `MockData.TempChange` | pawguard/app/utils/mockData.ts:80 | The temperature step lies in [-0.15, 0.15). It is zero exactly for the draw 0.5. |
| `MockData.HumidChange` | pawguard/app/utils/mockData.ts:81 | The humidity step lies in [-1, 1). It is zero exactly for the draw 0.5. |
| `MockData.Clamp` | pawguard/app/utils/mockData.ts:87-88 | `Math.max(lo, Math.min(hi, v))` lies in [lo, hi]. It is `v` when `v` is inside, `lo` below and `hi` above. |
| `MockData.ClampStep` | pawguard/app/utils/mockData.ts:83-88 | Clamping a stepped in-bounds value moves it by no more than the step. |
| `MockData.UpdateRoom` | pawguard/app/utils/mockData.ts:78-96 | One room's update keeps its id and name and restamps it. Both readings end inside the clamp bounds whatever they were. An in-bounds temperature moves by at most 0.15 and an in-bounds humidity by at most 1. With the draw 0.5, an in-bounds reading is unchanged. |
| `MockData.UpdateRoomData` | pawguard/app/utils/mockData.ts:77-97 | The update keeps the list length and each room's id and name, in order. Each room is updated on its own draws only. Every reading of the result is inside [18, 32] °C and [30, 80] %. |
| `MockData.Simulate` | pawguard/app/utils/mockData.ts:77-97 | After any number of successive updates, the rooms keep their ids, names and order. After at least one update, every reading is inside the clamp bounds. |
| `MockData.HourOf` | pawguard/app/utils/mockData.ts:23-24 | The hour of a timestamp is in 0..23. |
| `MockData.HourLabel` | pawguard/app/utils/mockData.ts:31 | The label template: the hour's `toString()` left-padded with `0` to two characters, then `:00`. Its shape is stated by `HourLabelShape`. |
| `MockData.HourLabelShape` | pawguard/app/utils/mockData.ts:31 | The label is the hour's two digits, zero-padded, followed by `:00`. It is five characters and reads back as its hour, so distinct hours give distinct labels. |
| `MockData.SampleTime` | pawguard/app/utils/mockData.ts:23 | The time of point k, indexed oldest first: `now` minus 24 - k hours, i.e. the loop's `now - i * 60 * 60 * 1000` with i = 24 - k. |
| `MockData.GenerateHistoricalData` | pawguard/app/utils/mockData.ts:18-40 | Exactly 25 points, oldest first. Point k is taken 24 - k hours before `now`. It is labelled with that time's hour, so the label names the current hour plus k modulo 24. It carries the k-th set of room temperatures. |
| `MockData.HourOfHoursBefore` | pawguard/app/utils/mockData.ts:23-24 | Going back i hours moves the hour of the day back by i, modulo 24. |
| `MockData.SeriesHours` | pawguard/app/utils/mockData.ts:22-24 | The hour of point k is the current hour plus k, modulo 24. Each point's hour follows the previous one's. The first and last points both fall on the current hour. |
| `MockData.SeriesLabel` | pawguard/app/utils/mockData.ts:24-31 | The label of point k has five characters and names the current hour plus k, modulo 24. |
| `App.IsCriticalReading` | pawguard/app/App.tsx:27-30 | The filter predicate: a temperature below 18 or above 28, or a humidity below 35 or above 65. |
| `App.CriticalRooms` | pawguard/app/App.tsx:27-31 | The filtered list is no longer than the snapshot. |
| `App.CriticalRoomsMembers` | pawguard/app/App.tsx:27-31 | The filter keeps every room with a critical reading and nothing else. |
| `App.AlertCount` | pawguard/app/App.tsx:27-31 | The alert count is between 0 and the number of rooms. |
| `App.AlertCountIsFlaggedCount` | pawguard/app/App.tsx:27-31 | The alert count is the number of positions whose temperature is < 18 or > 28, or whose humidity is < 35 or > 65. |
| `App.CriticalReadingIsCriticalStatus` | pawguard/app/App.tsx:27-31 | The tick's inline filter flags a room exactly when the room card labels it critical. A warning room is never flagged. |
| `App.AlertCountIsCriticalStatusCount` | pawguard/app/App.tsx:27-31 | The alert count equals the number of rooms the room card labels critical. |
| `App.InitialCriticalRooms` | pawguard/app/utils/mockData.ts:43-74 | In the seed snapshot only room-b (28.2 °C, 68 %) is critical. The other three rooms are safe. |
| `App.FirstTickFromSeed` | pawguard/app/App.tsx:22-34 | Starting from the seed snapshot, one tick on any draws leaves room-b critical and publishes an alert count of exactly 1, the count of room-b alone. |
| `App.InitialAlertCount` | pawguard/app/App.tsx:16-18 | The hard-coded initial alert count of 1 is the count computed from the seed snapshot. |
| `App.NoLowTemperatureAlertAfterUpdate` | pawguard/app/App.tsx:28 | After an update every temperature is at least 18. A room is then flagged only for a temperature above 28 or a humidity outside [35, 65]. |
| `App.Monitor.constructor` | pawguard/app/App.tsx:16-18 | The initial state is the seed snapshot with alert count 1, and it satisfies the monitor invariant. |
| `App.Monitor.Tick` | pawguard/app/App.tsx:22-35 | The snapshot becomes the update of the previous snapshot: same length, same ids and names. The alert count is computed from the new snapshot, never the old one. It equals the number of rooms labelled critical and is at most the number of rooms. The invariant holds again afterwards, so it holds after any number of ticks. |

## Left out

- Timer plumbing is not modelled: `setInterval`/`clearInterval` and the React `useState`/`useEffect` lifecycle (`pawguard/app/App.tsx:21-39`). Only the tick body is, as `Monitor.Tick`. The chart data held in state is generated once and is never changed by the tick.
- Features with no counterpart in the code are absent: start/stop handles, duplicate-start errors, configurable thresholds and clock or random generators as objects.
- The diurnal curve (`Math.sin`) and the per-room bias and noise of the history series (`pawguard/app/utils/mockData.ts:27-35`) are not modelled, because they involve floating-point trigonometry. `GenerateHistoricalData` takes the 25 sets of room temperatures as an input, so only length, order, labels and placement are proved.
- `HourOf`: time zones are reduced to a fixed UTC offset. Daylight-saving transitions are not modelled.
- `GetInitialRoomData`: the four seed rooms are stamped with one `now`, while the source calls `new Date()` once per room (`pawguard/app/utils/mockData.ts:50`, `:57`, `:64`, `:71`), so the model's equal stamps are not guaranteed by the source.
- `UpdateRoomData`: the whole update is restamped with one `now`, while the source calls `new Date()` once per room.
- Readings are exact reals. IEEE rounding, NaN and infinities are not modelled. `Math.max`/`Math.min` are modelled on finite numbers only.
- Everything that only renders is not modelled:
  - the JSX markup, icons and CSS;
  - the `alertCount > 0` badge (`pawguard/app/App.tsx:67`);
  - the status text in the badge;
  - `toLocaleTimeString` formatting (`pawguard/app/components/RoomCard.tsx:52-54`);
  - `toFixed` formatting (`pawguard/app/components/RoomCard.tsx:84`, `pawguard/app/components/RoomCard.tsx:97`).
- `pawguard/src/App.js` and `pawguard/app/components/TemperatureChart.tsx` are not part of this model. They hold only static markup and chart rendering.
