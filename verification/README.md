# Smart-home dashboard core, modelled in Dafny

This project models the logic of the DoAnDaNganh_Group1 smart-home dashboard, a Next.js frontend with a small FastAPI backend. It covers:

- **Notifications.** The bounded, newest-first notification list of the `useNotifications` hook. Every caller of the hook owns a separate list. The WebSocket provider feeds its own list from server `notification` and `init` messages. The header's threshold checker adds `data_threshold` alerts to the header's list. The bell dropdown shows a third list, one neither of them writes to.
- **Sensor statistics.** The three copies of `calculateStats`: min, max, average, the upper median, population variance and the current value. The temperature copy also drops NaN readings.
- **History.** The time-range filter, and the parse/filter/sort step for fetched temperature history.
- **Status labels.** The bands on the humidity, temperature and light pages, and the different bands of the sensors overview page.
- **Sensors page.** Its 50-sample rolling window, current labels and chart-series toggles.
- **Log table.** Its filters, 20-row pagination, previous/next navigation and deletion by id.
- **Fan and light controls.** The device page's fan and light state machine and the clamped fan card. The dashboard's device cards and LED colour table.
- **Backend.** The pydantic range and length validators of `backend/model.py`.
- **Small helpers.** The sidebar's active-link test and the registration form's validation order.

Everything is pure functions over immutable datatypes:
- sensor values are `real`;
- timestamps, speeds and ids are `int`;
- strings are `seq<char>`.

The model spells out JavaScript behaviour where it matters:
- `Array.prototype.slice` with negative and clamped indices;
- `filter` and a stable `sort`;
- string `<` as lexicographic order;
- `String(n)` for integers;
- ASCII `toLowerCase`/`toUpperCase`;
- `Math.round` as floor(x + 1/2).

Network calls, their answers and the clock become parameters:
- a success flag;
- a `Response` or `RegisterResult` value;
- `now`;
- a cutoff instant.

Modules, one per file:
- `Options`, `Text`, `Seqs` and `Sorting`: shared helpers.
- `Notifications`, `WebSocketDispatch`, `HeaderThresholds`: notifications.
- `SensorStats`, `SensorHistory`, `StatusBands`, `SensorsDashboard`: sensor pages.
- `LogTable`: the log table.
- `BackendModel`, `FanControl`, `LedColors`, `DevicePage`, `DeviceCards`: devices.
- `Sidebar`, `RegisterForm`.

## Model

| member | source | states |
|---|---|---|
| Notifications.Add | frontend/components/notification/NotificationSystem.tsx:181-195 | The list grows to min(old+1, cap). The head is the new unread entry with the given message and type. The rest is the old list in order, minus only the oldest entry beyond the cap. |
| Notifications.AddUnreadCount | frontend/components/notification/NotificationSystem.tsx:181-195 | With room left, an add raises the unread count by one. At the cap it rises by one less the unread state of the dropped entry. |
| Notifications.UnreadCountBounds | frontend/components/notification/NotificationSystem.tsx:44 | The unread count is at most the list length. It is zero iff every entry is read. |
| Notifications.UnreadCountConcat | frontend/components/notification/NotificationSystem.tsx:44 | The unread count of two lists laid end to end is the sum of their counts. |
| Notifications.MarkAllAsRead | frontend/components/notification/NotificationSystem.tsx:198-202 | Same length, and the same id, type, message and time at every position. Every entry is read, so the unread count is 0. |
| Notifications.MarkAllAsReadIdempotent | frontend/components/notification/NotificationSystem.tsx:198-202 | Marking twice is the same as marking once. |
| Notifications.ClearAll | frontend/components/notification/NotificationSystem.tsx:205-207 | The list becomes empty. |
| Notifications.OnClearAll | frontend/components/notification/NotificationSystem.tsx:261-264 | Mark-all-read then clear-all leaves an empty list with no unread entries. |
| Notifications.FireMessage | frontend/components/notification/NotificationSystem.tsx:210-212 | The fire message starts with the fixed prefix and contains the location. |
| Notifications.ThresholdMessage | frontend/components/notification/NotificationSystem.tsx:215-217 | The threshold message starts with the data type and contains the decimal text of the value and of the threshold. |
| Notifications.ThresholdMessageDeterminesNumbers | frontend/components/notification/NotificationSystem.tsx:215-217 | For one data type, the message determines the value and the threshold. Two alerts with different numbers never read the same. |
| Notifications.AddFireAlert | frontend/components/notification/NotificationSystem.tsx:210-212 | Adds one unread FIRE_ALERT entry at the head, carrying the fire message for the location. |
| Notifications.AddDataThresholdAlert | frontend/components/notification/NotificationSystem.tsx:215-217 | Adds one unread DATA_THRESHOLD entry at the head, carrying the threshold message. |
| Notifications.AlertsAddOneOfTheirKind | frontend/components/notification/NotificationSystem.tsx:210-217 | Below the cap, a fire alert adds exactly one fire entry and no threshold entry. A threshold alert does the reverse. |
| Notifications.AddAllPrepends | frontend/components/notification/NotificationSystem.tsx:192-193 | Adding a batch one by one equals putting the batch, reversed, in front of the old list and cutting at the cap. |
| Notifications.AddAllHead | frontend/components/notification/NotificationSystem.tsx:192-193 | After a batch of at most cap entries, position i holds the batch's (k-1-i)-th entry. |
| Notifications.AddAllBounded | frontend/components/notification/NotificationSystem.tsx:177-193 | Any sequence of adds keeps the list within the cap. |
| Notifications.RepeatedAddAll | frontend/components/notification/NotificationSystem.tsx:181-195 | The buffer keeps no memory of past alerts. Re-adding the same batch puts the same messages and kinds back at the head. |
| WebSocketDispatch.Render | frontend/components/notification/WebSocketClient.tsx:71-89 | A notification renders iff it is not a fire or threshold alert missing `data`. A fire alert renders to a fire message for `data.location`. A threshold alert renders to a threshold message from `data`. Any other type renders to a DATA_THRESHOLD entry with the server's `message`. |
| WebSocketDispatch.OnMessage | frontend/components/notification/WebSocketClient.tsx:65-115 | An unparsable frame changes nothing. A parsed frame updates the last message. Other message types, and `init` without notifications, leave the buffer alone. |
| WebSocketDispatch.FireAlertNotification | frontend/components/notification/WebSocketClient.tsx:76-78 | A `fire_alert` notification adds exactly one fire alert for `data.location`. |
| WebSocketDispatch.ThresholdNotification | frontend/components/notification/WebSocketClient.tsx:79-85 | A `data_threshold` notification adds one threshold alert built from `sensor_type`, `value` and `threshold`. |
| WebSocketDispatch.FallbackNotification | frontend/components/notification/WebSocketClient.tsx:86-88 | Any other subtype adds one DATA_THRESHOLD entry with the server's message. |
| WebSocketDispatch.DeliverAllIsAddAll | frontend/components/notification/WebSocketClient.tsx:93-111 | Delivering an `init` snapshot is adding its rendered entries in array order. |
| WebSocketDispatch.InitPrependsReversed | frontend/components/notification/WebSocketClient.tsx:93-111 | After `init`, the buffer is the snapshot reversed in front of the old buffer, cut at 10. The server's last entry is at the head. |
| WebSocketDispatch.InitStopsAtFirstFailure | frontend/components/notification/WebSocketClient.tsx:93-115 | When an `init` entry throws, the entries before it have been added and the rest are lost. |
| HeaderThresholds.Round | frontend/components/layout/Header.tsx:102 | `Math.round` lands within one half of its argument. |
| HeaderThresholds.RaisedAlertIf | frontend/components/layout/Header.tsx:101-118 | A channel's check raises an alert for that channel iff its reading strictly exceeds its threshold: 30, 80, 90, or 2 for the data rate. |
| HeaderThresholds.CheckThresholds | frontend/components/layout/Header.tsx:99-119 | At most four alerts. One for a channel iff that channel is breached. Each carries its configured threshold and the reported value: the rounded reading, or the raw counter for the data rate. Order is temperature, humidity, light, data rate. |
| HeaderThresholds.AtThresholdIsQuiet | frontend/components/layout/Header.tsx:101-118 | Readings exactly at the thresholds raise nothing. |
| HeaderThresholds.HotReadingScenario | frontend/components/layout/Header.tsx:99-119 | A 32° reading with the other channels quiet adds exactly one temperature alert reading 32 against 30. |
| HeaderThresholds.Requests | frontend/components/layout/Header.tsx:99-119 | One DATA_THRESHOLD request per alert. |
| HeaderThresholds.RepeatedCheckRealerts | frontend/components/layout/Header.tsx:99-119 | No cooldown: checking the same data again puts the same alert messages back at the head. |
| Seqs.Slice | frontend/app/sensors/page.tsx:117 | `slice` with in-range bounds is the subrange. A negative start counts from the end. An end of 0 gives the empty list. |
| Seqs.FilterCounts | frontend/app/humidity/page.tsx:200 | A filter keeps all occurrences of each passing value and none of the others. |
| Seqs.FilterIsSubsequence | frontend/app/humidity/page.tsx:200 | A filter's result is an order-preserving subsequence of its input. |
| Sorting.SortBy | frontend/app/temperature/page.tsx:173-175 | The sort returns a permutation of its input, ordered by the key. |
| Sorting.SortedIsFixed | frontend/app/temperature/page.tsx:173-175 | Input already in key order comes back unchanged. |
| Sorting.SortIsStable | frontend/app/temperature/page.tsx:173-175 | The sort is stable. For every key, the elements carrying that key come out in their input order. |
| Sorting.SortValues | frontend/app/humidity/page.tsx:69 | The numeric sort returns an ascending permutation. |
| Sorting.AscendingUnique | frontend/app/humidity/page.tsx:69 | Two ascending arrangements of the same values are equal, so the sorted copy is determined by the values. |
| SensorStats.Summarize | frontend/app/humidity/page.tsx:56-93 | Empty input gives all zeros. Otherwise: `current` is the last input value; min and max bound every value; min, max and median are input values; min ≤ median ≤ max; avg = sum/n lies in [min, max]; variance = Σ(v-avg)²/n ≥ 0. |
| SensorStats.CalculateStats | frontend/app/light_intensity/page.tsx:56-93 | Zeros for no data. Otherwise: `current` is the last sample's value; every value lies in [min, max], both attained; min ≤ median ≤ max; avg = sum/n lies in [min, max]; variance = Σ(v-avg)²/n ≥ 0. The whole snapshot is `Summarize` of the values, so the median facts of `MedianIsUpperMiddle` apply. |
| SensorStats.MedianIsUpperMiddle | frontend/app/humidity/page.tsx:69-75 | The median is the element at index floor(n/2) of any ascending arrangement. It is the unique value with at most n/2 values below it and at least n/2+1 at or below it: the upper middle for even n. |
| SensorStats.StatsIgnoreOrder | frontend/app/humidity/page.tsx:69-82 | Min, max, avg, median and variance depend only on the multiset of values. |
| SensorStats.ConstantInput | frontend/app/humidity/page.tsx:69-82 | Constant input has min = max = avg = median = that value and variance 0. |
| SensorStats.SumOfPermutation | frontend/app/humidity/page.tsx:71-72 | A sum does not depend on the order of the values. |
| SensorStats.SumOfNonNegative | frontend/app/humidity/page.tsx:78-80 | A sum of non-negative terms is non-negative, and is 0 iff every term is 0. |
| SensorStats.UpperMedianUnique | frontend/app/humidity/page.tsx:75 | The upper-median characterisation picks at most one value. |
| SensorStats.ValidValuesCounts | frontend/app/temperature/page.tsx:68 | Each finite reading survives with all of its occurrences. NaN readings do not survive. |
| SensorStats.ValidValuesConcat | frontend/app/temperature/page.tsx:68 | Survivors keep input order: the valid values of two stretches laid end to end are those of the first followed by those of the second. |
| SensorStats.ValidValuesEmpty | frontend/app/temperature/page.tsx:68-76 | Nothing survives iff every reading is NaN. |
| SensorStats.ValidValuesLast | frontend/app/temperature/page.tsx:95 | The last surviving value is the last finite reading. |
| SensorStats.TemperatureStats | frontend/app/temperature/page.tsx:55-102 | All-NaN input gives zeros. Every finite reading lies in [min, max]. `current` is the last finite reading. Min, max and median are finite readings of the input, with min ≤ median ≤ max. avg is the mean of the finite readings and lies in [min, max]. variance is their mean squared deviation and is ≥ 0. The snapshot is `Summarize` of the finite readings. |
| SensorHistory.FilterSince | frontend/app/humidity/page.tsx:200 | Only points at or after the cutoff are kept. |
| SensorHistory.FilterSinceExact | frontend/app/light_intensity/page.tsx:199 | The filter is the order-preserving subsequence holding exactly the points at or after the cutoff, with all their occurrences. |
| SensorHistory.FilterSinceNarrows | frontend/app/humidity/page.tsx:200 | Filtering by a later cutoff after an earlier one is filtering by the later one. |
| SensorHistory.ParseValidCounts | frontend/app/temperature/page.tsx:167-170 | Entries whose value parses survive with their multiplicity; the others are dropped. |
| SensorHistory.CleanHistory | frontend/app/temperature/page.tsx:167-177 | Stored history is ordered by timestamp and is a permutation of the entries that parsed. |
| SensorHistory.CleanHistoryKeepsValid | frontend/app/temperature/page.tsx:167-177 | Every fetched entry with a number is stored, as often as it was fetched, and nothing else. |
| SensorHistory.ParseValidConcat | frontend/app/temperature/page.tsx:167-170 | Parsing keeps fetched order: the survivors of two runs of entries laid end to end are each run's survivors, in sequence. |
| SensorHistory.CleanHistoryKeepsTies | frontend/app/temperature/page.tsx:173-177 | Entries with the same timestamp are stored in the order they survive the parse. By ParseValidConcat, that is the order they were fetched. |
| SensorHistory.InOrderHistoryUnchanged | frontend/app/temperature/page.tsx:173-177 | When the parsed entries already arrive in time order, they are stored as they came. |
| StatusBands.HumidityStatus | frontend/app/humidity/page.tsx:231-236 | ≥70 "Too Humid" red; [60,70) "High Humidity" yellow; ≤30 "Too Dry" yellow; (30,60) "Optimal Humidity" green. Each label iff its band. |
| StatusBands.TemperatureStatus | frontend/app/temperature/page.tsx:245-250 | ≥35 danger red; [30,35) high warning yellow; ≤15 low warning blue; (15,30) normal green. Each label iff its band. |
| StatusBands.LightStatus | frontend/app/light_intensity/page.tsx:230-236 | The five bands ≥80, [60,80), ≤20, (20,40] and (40,60), each label iff its band. |
| StatusBands.SensorsTemperatureStatus | frontend/app/sensors/page.tsx:57-62 | Returns its input as `value`. Four bands with the sensors page's wording, each label and colour iff its band. |
| StatusBands.SensorsHumidityStatus | frontend/app/sensors/page.tsx:64-69 | Returns its input as `value`. Four bands, each label and colour iff its band. |
| StatusBands.SensorsLightStatus | frontend/app/sensors/page.tsx:71-75 | Returns its input as `value`. Only three bands: ≥80 Very Bright, ≤20 Too Dark, otherwise Good. |
| StatusBands.AirGradeOf | frontend/app/sensors/page.tsx:77-82 | ≥80 Excellent, [60,80) Good, [40,60) Fair, <40 Poor, each iff its band. |
| StatusBands.SensorsAirQualityStatus | frontend/app/sensors/page.tsx:77-82 | Returns its input as `value`, with the label and colour of its grade. |
| StatusBands.AirQualityMonotone | frontend/app/sensors/page.tsx:77-82 | A higher reading never gets a worse grade. |
| StatusBands.SensorsShortenPageLabels | frontend/app/sensors/page.tsx:57-69 | For temperature and humidity, the sensors page uses the single-sensor page's colours. Its label is a prefix of that page's label. |
| StatusBands.LightLabelsDiffer | frontend/app/sensors/page.tsx:71-75 | The sensors page's "Good" covers the light page's Bright, Low Light and Optimal Light bands. At 30 the two pages disagree on colour. |
| SensorsDashboard.Append | frontend/app/sensors/page.tsx:117 | The window's length becomes min(old+1, 50). The last element is the new sample. The rest are the latest ≤49 old samples in order. |
| SensorsDashboard.WindowSlides | frontend/app/sensors/page.tsx:116-120 | After any arrivals, the window is the latest 50 of the old window followed by the new samples. |
| SensorsDashboard.WindowHoldsLatest | frontend/app/sensors/page.tsx:116-120 | Starting empty, the window holds exactly the latest 50 samples, oldest first. |
| SensorsDashboard.WindowBounded | frontend/app/sensors/page.tsx:117 | The window never exceeds 50 samples. |
| SensorsDashboard.UpdateCurrentValues | frontend/app/sensors/page.tsx:126-133 | Each label keeps its reading as `value`. Humidity, temperature and light get the overview page's classification of that reading. Air quality gets the label and colour of its grade. |
| SensorsDashboard.LabelsFollowNewest | frontend/app/sensors/page.tsx:116-133 | After any run of arrivals, the labels computed from the window's newest sample are those of the last sample that arrived. |
| SensorsDashboard.CurrentValuesAgreeWithPages | frontend/app/sensors/page.tsx:126-133 | The overview's humidity and temperature labels have the single-sensor page's colour, and their wording is a prefix of that page's wording. |
| SensorsDashboard.InitialValuesLabels | frontend/app/sensors/page.tsx:93-98 | The labels before the first sample are Optimal, Normal, Good and Good. |
| SensorsDashboard.ToggleDataset | frontend/app/sensors/page.tsx:135-140 | Flips exactly the named series' flag; the other three stay as they were. |
| SensorsDashboard.ToggleTwice | frontend/app/sensors/page.tsx:135-140 | Toggling a series twice restores the flags. |
| SensorsDashboard.TogglesCommute | frontend/app/sensors/page.tsx:135-140 | Toggles of two series commute. |
| LogTable.Filtered | frontend/app/logging/page.tsx:57-70 | Every shown row has the chosen status, a date within [dateFrom, dateTo] in string order, and contains the search text ignoring case, for each filter that is set. |
| LogTable.FilteredExact | frontend/app/logging/page.tsx:57-70 | The shown rows are an order-preserving subsequence of the logs, holding exactly the passing rows with all their occurrences. |
| LogTable.NoFiltersKeepAll | frontend/app/logging/page.tsx:58-69 | With every filter empty, all logs are shown. |
| LogTable.SearchIgnoresCase | frontend/app/logging/page.tsx:61-68 | Searching for the upper-cased text finds the same rows. |
| LogTable.SearchFindsSensor | frontend/app/logging/page.tsx:61-68 | A search for a row's sensor name, in either case, finds that row. |
| LogTable.TotalPages | frontend/app/logging/page.tsx:72 | The result is the least t with 20t ≥ n, so it is 0 iff nothing matches. |
| LogTable.Page | frontend/app/logging/page.tsx:73-74 | A page has at most 20 rows. For an existing page it is rows 20(p-1) up to 20p. Page 0 is empty, and so is a page past the last row, which a narrowed filter can leave selected. |
| LogTable.PagesCoverAll | frontend/app/logging/page.tsx:72-74 | Pages 1 to totalPages, laid end to end, are the filtered list. |
| LogTable.PrevPage | frontend/app/logging/page.tsx:76 | Goes back one page, never below 1. |
| LogTable.NextPage | frontend/app/logging/page.tsx:77 | Goes forward one page, never above totalPages. With no matches it lands on 0. |
| LogTable.NavigationStaysInRange | frontend/app/logging/page.tsx:76-77 | From an existing page, any run of prev/next stays within 1..totalPages. With no matches the page only moves between 0 and 1. |
| LogTable.DeleteLog | frontend/app/logging/page.tsx:49-55 | An unconfirmed delete changes nothing. A confirmed one leaves no row with that id, keeps the others in order, and returns to page 1. |
| LogTable.DeleteRemovesExactly | frontend/app/logging/page.tsx:51 | A confirmed delete removes every row with the id and keeps every other row with all its occurrences. |
| BackendModel.CheckSpeed | backend/model.py:17-18 | A speed is accepted iff 0 ≤ speed ≤ 100, both ends inclusive. Below the range breaks `ge`; above it breaks `le`. |
| BackendModel.FanSpeedBoundaries | backend/model.py:18 | 0 and 100 are accepted; -1 and 101 are not. |
| BackendModel.CheckLength | backend/model.py:13-14 | A string passes iff its length is within [min, max], and fails the bound it breaks. |
| BackendModel.CheckLogin | backend/model.py:12-14 | Credentials pass iff 1 ≤ \|username\| ≤ 200 and 1 ≤ \|password\| ≤ 255. A username error comes first and a password error last. |
| FanControl.Clamp | frontend/components/dashboard/FanControl.tsx:30 | The result is in [0,100]. An in-range value is unchanged; values beyond an end go to that end. |
| FanControl.ClampIdempotent | frontend/components/dashboard/FanControl.tsx:30 | Clamping twice is clamping once. |
| FanControl.ClampAccepted | frontend/components/dashboard/FanControl.tsx:30 | Every clamped speed is one the backend's FanSpeed accepts. |
| FanControl.HandleSpeedChange | frontend/components/dashboard/FanControl.tsx:28-33 | Stores the request clamped to 0..100, so in-range requests are kept, and reports exactly the stored value. |
| FanControl.IncreaseSpeed | frontend/components/dashboard/FanControl.tsx:39-41 | +5 up to 95; from anything above 95 the result is 100. The reported value is the stored one. |
| FanControl.DecreaseSpeed | frontend/components/dashboard/FanControl.tsx:43-45 | -5 down to 5; from anything below 5 the result is 0. The reported value is the stored one. |
| FanControl.RunStaysValid | frontend/components/dashboard/FanControl.tsx:22-45 | Whatever the initial speed, after any control is used the speed is valid and stays valid. |
| FanControl.IncreaseThenDecrease | frontend/components/dashboard/FanControl.tsx:39-45 | For 5 ≤ speed ≤ 95, one step up and one step down cancel out. |
| FanControl.StepsSaturate | frontend/components/dashboard/FanControl.tsx:39-45 | Increase at 100 stays 100. Decrease at 0 stays 0. From 98, up then down lands on 95. |
| LedColors.FromEntries | frontend/components/dashboard/DeviceControls.tsx:32 | The table's keys are exactly the entries' names. |
| LedColors.FromEntriesLookup | frontend/components/dashboard/DeviceControls.tsx:32 | With distinct names, each name maps to its own code. |
| LedColors.Lookup | frontend/components/dashboard/DeviceControls.tsx:89 | A name is found iff it is a key of the table, and yields the table's code. |
| LedColors.ColorMapIsPalette | frontend/components/dashboard/DeviceControls.tsx:21-32 | The table holds exactly the nine listed name/code pairs. |
| LedColors.BlueIsMissing | frontend/components/ui/LedColorSellector.tsx:14 | "BLUE", which the selector offers, is not in the table. |
| DevicePage.SendFan | frontend/app/device/page.tsx:46-93 | The on/off flag follows a successful command and ignores a failed one; nothing else changes. |
| DevicePage.HandleSpeedChange | frontend/app/device/page.tsx:172-186 | Stores and reports the request clamped to 0..100. Sends on(newSpeed), unclamped, when newSpeed > 0 and off otherwise. The flag moves only on success. |
| DevicePage.HandleFanToggle | frontend/app/device/page.tsx:192-198 | Sends on(speed) when off and off when on. The flag flips iff the command succeeds. |
| DevicePage.IncrementSpeed | frontend/app/device/page.tsx:200-206 | At or above 100 nothing happens. Below it, the speed rises by 5 without clamping and on(speed+5) is sent. |
| DevicePage.DecrementSpeed | frontend/app/device/page.tsx:208-219 | At or below 0 nothing happens. Above it, the speed drops by 5 without clamping. Off is sent when the result is ≤ 0, otherwise on(result). |
| DevicePage.HandleLightToggle | frontend/app/device/page.tsx:221-227 | When off, sends light-on and, after a success, the selected colour. When on, sends light-off. The flag flips iff the first command succeeds. |
| DevicePage.HandleColorSelect | frontend/app/device/page.tsx:229-236 | Always selects the colour and closes the menu. Sends the colour code only while the light is on. |
| DevicePage.ToggleDropdown | frontend/app/device/page.tsx:352 | Opens or closes the colour menu and sends nothing. |
| DevicePage.IncrementLeavesRange | frontend/app/device/page.tsx:200-206 | From any speed 96–99, "+" stores a speed above 100 and sends a speed the backend rejects. |
| DevicePage.IncrementFromDefaultPage | frontend/app/device/page.tsx:172-206 | From the default page: switch the fan on, slide to 96, press "+". This stores 101 and sends on(50), on(96), then on(101), which the backend refuses. |
| DevicePage.DecrementLeavesRange | frontend/app/device/page.tsx:208-219 | From any speed 1–4, "−" stores a negative speed and sends off. |
| DevicePage.DecrementThenTurnOn | frontend/app/device/page.tsx:172-219 | From the default page: switch the fan on, slide to 3, press "−", then "Turn On". This stores -2 and sends on(50), on(3), off, then on(-2), which the backend refuses. |
| DevicePage.IncrementSpeedClamped | frontend/app/device/page.tsx:200-206 | The increment with the clamp used elsewhere: below 100 the stored and sent speed is valid, and equals min(speed+5, 100). |
| DevicePage.DecrementSpeedClamped | frontend/app/device/page.tsx:208-219 | The decrement with the clamp: above 0 the stored speed is valid and equals max(speed−5, 0). Off is sent at 0. |
| DevicePage.ClampedRunAccepted | frontend/app/device/page.tsx:172-236 | With clamped buttons and slider values in 0..100, the speed stays valid and every fan-on command carries a speed the backend accepts. |
| DevicePage.Step | frontend/app/device/page.tsx:264-366 | An action whose control is not on screen changes nothing and sends nothing. The speed controls need the fan on. The colour menu needs the light on. A colour option also needs the menu open. |
| DevicePage.HiddenFanControlsIgnored | frontend/app/device/page.tsx:264 | With the fan off, any run of slider and "+"/"−" actions leaves the page unchanged and sends nothing. |
| DeviceCards.Set | frontend/hooks/useDeviceControl.ts:36-39 | Sets the named device and leaves every other device unchanged. |
| DeviceCards.InitialDevicesState | frontend/hooks/useDeviceControl.ts:5-10 | Initially humidity off, temperature on, LED off, light intensity off. |
| DeviceCards.ToggleDevice | frontend/hooks/useDeviceControl.ts:32-47 | Resolves true iff the update answers success, and only then sets the device. An unsuccessful answer changes nothing. An exception leaves the devices and sets "Failed to toggle <device>". |
| DeviceCards.ToggleChangesOnlyDevice | frontend/hooks/useDeviceControl.ts:35-40 | A successful toggle changes only the named device. |
| DeviceCards.ToggleIdempotent | frontend/hooks/useDeviceControl.ts:36-39 | Repeating the same successful toggle changes nothing more. |
| DeviceCards.ErrorNamesDevice | frontend/hooks/useDeviceControl.ts:43 | The error message identifies the device. |
| DeviceCards.CardToggle | frontend/components/dashboard/DeviceControls.tsx:98-138 | A card's switch requests the negation of its own device's state. |
| DeviceCards.CardToggleFlips | frontend/components/dashboard/DeviceControls.tsx:98-138 | A successful card toggle flips that device alone. A second press restores the state. |
| DeviceCards.HandleColorChange | frontend/components/dashboard/DeviceControls.tsx:87-90 | Every colour change sends light-on and then a colour change with the upper-cased name's code. The light flag follows the light-on answer. |
| DeviceCards.ColorChangeIgnoresCase | frontend/components/dashboard/DeviceControls.tsx:89 | The lookup ignores the case of the colour name. |
| DeviceCards.BlueSendsNoCode | frontend/components/dashboard/DeviceControls.tsx:89 | "BLUE" sends a colour change without a code; "red" sends #FF0000. |
| Sidebar.LinkClass | frontend/components/layout/Sidebar.tsx:30-35 | Gives the active class iff the link is active, the inactive class otherwise. Both start with the base class. |
| Sidebar.DeviceLinkLitOnDevices | frontend/components/layout/Sidebar.tsx:24-28 | The prefix test is not segment-aware: "/device" is active on "/devices". The root link is inactive off the root page. |
| Sidebar.AtMostOneActive | frontend/components/layout/Sidebar.tsx:24-28 | For prefix-free link paths other than "/", at most one link is active on any page. |
| Sidebar.SidebarLinksPrefixFree | frontend/components/layout/Sidebar.tsx:55-91 | The sidebar's nine link paths are prefix-free, so it never lights two. |
| RegisterForm.HandleSubmit | frontend/components/auth/RegisterForm.tsx:20-58 | A password mismatch reports "Passwords don't match". Otherwise an empty date of birth reports its error. Neither case calls `register`. Otherwise `register` is called once with username, password, email and date. Success clears the error, sets the success text and schedules the redirect. Failure shows the error message, or the fallback when it is empty. Loading always ends false. |
| RegisterForm.MismatchWins | frontend/components/auth/RegisterForm.tsx:24-32 | With both problems, the mismatch error is the one shown. |
| RegisterForm.CalledIffValid | frontend/components/auth/RegisterForm.tsx:24-43 | Unless the server's message mimics a validation message, `register` is called iff no validation error is shown. |
| Text.IntToStringRoundTrip | frontend/components/notification/NotificationSystem.tsx:216 | The decimal text of an integer parses back to it. |
| Text.LexLessTrichotomy | frontend/app/logging/page.tsx:59-60 | String `<` is a strict total order, so the date bounds are well defined. |

## Left out

- Network, WebSocket and MQTT I/O. `fetch`, reconnects, JSON parsing and the backend routers are out. A command's outcome is a success flag or a `Response` value, and a WebSocket frame arrives already parsed or as unparsable.
- Timers, `Date.now()`, `new Date()` and random demo data. Notification ids and timestamps come from a `now` parameter. The filter cutoff is a parameter rather than computed with `setDate`/`setMonth`/`setFullYear`. The demo generators, polling intervals and the header's data-counter reset are not modelled.
- Floating point. Values are exact reals, so `toFixed`, `Math.sqrt` for the standard deviation, the chart axis bounds and NaN arithmetic outside the temperature page are left out. The variance is stated in place of the standard deviation.
- WebSocketDispatch.Render: assumes the server's `data.value` and `data.threshold` are integers. A fractional JSON number (for example 32.5) would be rendered by `${value}` with its fraction, and the model does not express JavaScript's number-to-text conversion.
- WebSocketDispatch.ThresholdNotification: the threshold alert is stated only for integral `value` and `threshold`, for the same reason.
- Notifications.ThresholdMessage: formats its two numbers as integers. Only the header rounds its readings before calling it.
- SensorStats.ValidValuesCounts: a parsed reading is either a finite number or NaN. The ±Infinity that `parseFloat` can return, and that `!isNaN` keeps, is not modelled.
- SensorStats.Summarize: does not state the converse that zero variance implies constant input. Only the direction in SensorStats.ConstantInput is proved.
- FanControl.HandleSpeedChange: assumes the slider yields an integer. The NaN that `parseInt` could give is not modelled.
- DevicePage.HandleLightToggle: the outcome of the follow-up colour change is not modelled, because it changes no state. Nor is the stale `selectedColor` a concurrent selection could leave in the closure.
- DeviceCards.HandleColorChange: the two un-awaited requests race. The model fixes their order to the order they are sent.
- Loading flags, alerts, console output and rendering (class names beyond the status colours and the sidebar's classes) are not modelled.
- RegisterForm.HandleSubmit: the router redirect is a flag. The `Date` conversion of the date of birth is not modelled; the entered text is passed through.
- Character case mapping covers ASCII letters only. String `<` compares code points, which agrees with JavaScript's UTF-16 comparison on the Basic Multilingual Plane.
- The `Config` class in backend/model.py is declared at module level rather than inside a model. It therefore configures nothing, and the validators do not strip whitespace.
- The initial load of device states in `useDeviceControl` is not modelled. It returns the same values as the initial state.

## Findings

| source | as written | input that shows it | evidently intended | confidence | as-written member | corrected member |
|---|---|---|---|---|---|---|
| frontend/app/device/page.tsx:200-206 | `incrementSpeed` adds 5 whenever the speed is below 100, with no clamp | turn the fan on, slide to 96, press "+": this stores 101 and sends on(101), which `FanSpeed` (backend/model.py:18) rejects | clamp to 100, as the slider handler and `FanControl` do | high (not executed) | DevicePage.IncrementLeavesRange | DevicePage.IncrementSpeedClamped |
| frontend/app/device/page.tsx:208-219 | `decrementSpeed` subtracts 5 whenever the speed is above 0, with no clamp | turn the fan on, slide to 3, press "−", then "Turn On": this stores -2, switches the fan off, then sends on(-2), which the backend refuses | clamp to 0 | medium (not executed) | DevicePage.DecrementThenTurnOn | DevicePage.DecrementSpeedClamped |
