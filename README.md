# EnduroSync health dashboard — verified model of its logic core

EnduroSync is a React Native dashboard for endurance athletes and their coaches. It shows
live-looking vitals (heart rate, hydration, fatigue, oxygen saturation, steps, calories,
distance, sleep), alerts, workouts, performance insights and connected wearables. Nearly all of
the app is presentation. This project models the parts that compute something:

- **MockData** (`utils/mockData.ts`). The synthetic vitals generator walks back one hour per
  sample from the clock reading. It draws base values, adds the morning, workout or night
  adjustment, clamps three metrics, and attaches `sleepHours` only at night and early morning.
  The team fixture's athlete ids are derived here, and so is the per-athlete health map built by
  a `reduce`. The module also answers the queries for the latest sample, for the samples in a
  time range (both ends inclusive) and for the unread-alert count.
- **AthleteCard**. These are the three-level threshold classifiers of heart rate, hydration and
  fatigue, shown as colours on an athlete's card.
- **DeviceConnectionCard** and **WorkoutCard**. These are integer time formatters: "last synced"
  wording with singular and plural forms, and the `Hh Mm` workout duration.
- **HealthChart**. The chart sorts samples oldest first, projects one metric, writes an `H:MM`
  label per sample, keeps every `ceil(n/6)`-th label and pads the result to exactly six.
- **AlertItem**, **HealthMetricCard** and **PerformanceInsightCard**. These are the enum-to-colour
  and enum-to-icon tables, plus the unread indicator of an alert.

Shared modules:

- **Types** holds the record shapes of `types/index.ts`. Optional fields become `Option`.
- **Display** holds colours and icons as enums, plus an urgency order on colours.
- **Strings** renders decimal numbers and reads them back, so the formatters' round trips can be
  stated.
- **Wrappers** holds `Option`.

Inputs that are not pure become parameters:

- Every `Math.random()` call becomes a `Random`, a real in `[0, 1)`. `Math.floor(Math.random() * k)`
  becomes `Draw(u, k)`, which lies in `[0, k)`.
- `Date.now()` becomes a `now` argument.
- `new Date(t).getHours()` and `getMinutes()` become a `TimeZone`, a function from timestamps to
  a local hour in `[0, 23]` and minute in `[0, 59]`.

Two operations are imperative in the source and stay imperative in Dafny:

- `GenerateMockHealthData` is a `while` loop whose body, `GenerateSample`, applies the source's
  `+=` adjustments and clamps. The loop is proved equal to the specification function
  `Generated`, and the body to the specification function `Sample`.
- The chart's padding loop, `DisplayLabels`, is a `while` loop proved to produce exactly six labels.

The team `reduce` is a loop that updates a map. It is proved to cover exactly the athletes' ids,
with each entry generated for that athlete.

Two details of the code are easy to misread:

- Oxygen saturation is `95 + floor(u * 5)`, an integer in `[95, 99]`.
- `sleepHours` is present at local hours >= 22 or <= 7. That includes hours 6 and 7, which lie
  outside the night window (>= 22 or <= 5) and get the morning adjustment instead.

## Model

| member | source | states |
|---|---|---|
| MockData.Draw | utils/mockData.ts:70-72 | `Math.floor(Math.random() * k)` is an integer in `[0, k)` |
| MockData.Clamp | utils/mockData.ts:94-96 | `Math.max(lo, Math.min(hi, x))` lies in `[lo, hi]`: it is `x` inside the range, `lo` below it and `hi` above it |
| MockData.Sample | utils/mockData.ts:66-110 | sample `i` has the caller's user id and the id `health-<user>-<timestamp>`, timestamp `now - i*3600000`, clamped heart rate in [55,180], hydration in [50,100], fatigue in [10,90], oxygen in [95,99], steps in [500,1499], calories in [50,199], distance in [300,999], and `sleepHours` (in [7,9)) present iff the local hour is >= 22 or <= 7 |
| MockData.Generated | utils/mockData.ts:61-114 | the generated list has `max(hoursCount, 0)` samples; timestamps fall by exactly one hour per sample from `now`; every sample belongs to the user and has its vitals in range |
| MockData.GenerateMockHealthData | utils/mockData.ts:61-114 | the imperative loop, with its `+=`/`-=` adjustments, clamps and `push`, produces exactly `Generated` |
| MockData.GenerateSample | utils/mockData.ts:66-110 | one loop iteration, with its draws, shifts, clamps and conditional `sleepHours`, builds exactly `Sample` for its hour |
| MockData.WindowsDisjoint | utils/mockData.ts:75-91 | the morning (6–9), workout (17–19) and night (>= 22 or <= 5) windows are pairwise disjoint, so at most one adjustment applies |
| MockData.WorkoutHourSample | utils/mockData.ts:81-86 | at hour 18, heart rate is draw+60+30, hydration draw+70-15 and fatigue draw+20+20, and there is no sleep value |
| MockData.EarlyMorningSample | utils/mockData.ts:75-79 | at hours 6 and 7 a sample carries `sleepHours` and gets the morning adjustment, not the night one |
| MockData.HourlySpacing | utils/mockData.ts:66 | in an hourly-descending list, samples `j <= k` are exactly `(k-j)` hours apart |
| MockData.HealthIdInjective | utils/mockData.ts:99 | two ids of one user are equal iff their timestamps are |
| MockData.GeneratedIdsDistinct | utils/mockData.ts:99 | two different samples of one generated list never share an id |
| MockData.AthleteIds | utils/mockData.ts:57 | `teamAthletes.map(athlete => athlete.id)` keeps length and order |
| MockData.TeamFixtureAthletes | utils/mockData.ts:53-58 | the team fixture lists athletes user1 to user4 and is coached by coach1 |
| MockData.BuildTeamHealthData | utils/mockData.ts:120-123 | the reduce's map has exactly the athletes' ids as keys; every entry is 24 samples owned by its key; the entry of each id is the generation made for the last athlete with that id |
| MockData.UserHealthData | utils/mockData.ts:274-276 | the current user's own list comes first, then the team entry under the id, else the empty list; in an owned store every sample returned belongs to the user |
| MockData.NoData | utils/mockData.ts:278-289 | the placeholder has id `no-data`, the requested user, the clock reading as timestamp, every metric 0 and no `sleepHours` |
| MockData.GetLatestHealthData | utils/mockData.ts:273-290 | the latest sample is the user's first; with no data (unknown user or empty list) it is the `no-data` all-zeros record with the requested user id; in a store whose lists belong to their owners, it carries the requested user id |
| MockData.LatestIsNewest | utils/mockData.ts:273-278 | for hourly-descending data, no sample is newer than the one returned as latest |
| MockData.InTimeRange | utils/mockData.ts:302-304 | the filter keeps exactly the samples with `start <= timestamp <= end`, both ends inclusive, and never adds any |
| MockData.InTimeRangeAppend | utils/mockData.ts:302-304 | the filter distributes over concatenation, so it keeps the original order |
| MockData.GetHealthDataForTimeRange | utils/mockData.ts:293-305 | the range query keeps exactly the user's samples in `[startTime, endTime]`, with `endTime` defaulting to `now` |
| MockData.UnreadCount | utils/mockData.ts:308-310 | the count is at most the number of alerts; it is 0 iff every alert is read and equals the length iff none is |
| MockData.UnreadCountAppend | utils/mockData.ts:308-310 | the unread count is additive over concatenation |
| MockData.FixtureUnreadAlerts | utils/mockData.ts:126-163 | the alert fixture has 2 unread alerts |
| AthleteCard.HeartRateColour | components/AthleteCard.tsx:20-24 | danger iff rate > 160, warning iff 140 < rate <= 160, success iff rate <= 140 |
| AthleteCard.HydrationColour | components/AthleteCard.tsx:26-30 | danger iff level < 60, warning iff 60 <= level < 75, success iff level >= 75 |
| AthleteCard.FatigueColour | components/AthleteCard.tsx:32-36 | danger iff level > 80, warning iff 60 < level <= 80, success iff level <= 60 |
| AthleteCard.ClassifiersNeverInfo | components/AthleteCard.tsx:20-36 | each classifier returns one of danger, warning and success, never info |
| AthleteCard.ClassifierBoundaries | components/AthleteCard.tsx:20-36 | the boundary values: 160 is warning and 140 success; 60 is warning and 75 success; 80 is warning and 60 success |
| AthleteCard.ClassifiersMonotone | components/AthleteCard.tsx:20-36 | urgency never falls as heart rate or fatigue rises, and never rises as hydration rises |
| AthleteCard.AthleteCardColours | components/AthleteCard.tsx:18-36 | the card classifies the first sample the store holds for the athlete; an athlete with no data shows the placeholder's colours, heart rate and fatigue as success and hydration as danger |
| AthleteCard.ClassifiersAreStatusColours | components/AthleteCard.tsx:20-36 | every colour a classifier returns is also a colour of the metric card's status table |
| DeviceConnectionCard.FormatLastSynced | components/DeviceConnectionCard.tsx:17-43 | missing or 0 means "Never synced"; a diff under a minute (including negative) is "Just now"; otherwise minutes in [1,59], hours in [1,23] or days >= 1, each the floor of the diff by its unit, written as "<n> <unit>[s] ago" |
| DeviceConnectionCard.Ago | components/DeviceConnectionCard.tsx:31-42 | the relative wording always ends in " ago" |
| DeviceConnectionCard.PluralIffNotOne | components/DeviceConnectionCard.tsx:31-42 | the unit takes a plural `s` iff the count is not 1 |
| DeviceConnectionCard.FixtureDevices | components/DeviceConnectionCard.tsx:17-43 | the fixture devices show "15 minutes ago" and "3 days ago" |
| WorkoutCard.SplitDuration | components/WorkoutCard.tsx:23-25 | minutes is the floor of the duration in minutes, and `hours*60 + remainingMinutes == minutes` with `0 <= remainingMinutes < 60`; hours is positive iff minutes >= 60 |
| WorkoutCard.FormatDuration | components/WorkoutCard.tsx:22-31 | both text forms end in the minute unit `m` |
| WorkoutCard.FormatDurationForm | components/WorkoutCard.tsx:27-30 | the text contains an `h` (the `Hh Mm` form) iff the duration is at least one hour |
| WorkoutCard.FormatDurationFields | components/WorkoutCard.tsx:24-28 | in the `Hh Mm` form the hour field reads back as the positive whole hours and the minute field as the remainder, below 60 |
| WorkoutCard.FormatDurationRoundTrip | components/WorkoutCard.tsx:22-31 | reading back the rendered `Hh Mm` or `Mm` text gives the whole minutes of the duration |
| WorkoutCard.ParseHoursAndMinutes | components/WorkoutCard.tsx:28 | the `Hh Mm` form reads back as `H*60 + M` |
| WorkoutCard.ParseMinutes | components/WorkoutCard.tsx:30 | the `Mm` form reads back as `M` |
| WorkoutCard.MissingDuration | components/WorkoutCard.tsx:22 | a missing duration renders "0m" |
| WorkoutCard.FixtureDurations | components/WorkoutCard.tsx:22-31 | the fixture workouts render "1h 0m", "2h 0m" and "45m" |
| WorkoutCard.CaloriesShown | components/WorkoutCard.tsx:70 | missing calories show as 0, present ones as themselves |
| HealthChart.Insert | components/HealthChart.tsx:27 | inserting into a sorted list keeps it sorted and adds exactly the one element |
| HealthChart.SortByTimestamp | components/HealthChart.tsx:27 | the sorted copy is a permutation of the data in non-decreasing timestamp order |
| HealthChart.MetricValue | components/HealthChart.tsx:30 | `item[metric]` picks heart rate, hydration, fatigue or oxygen saturation by the metric's name |
| HealthChart.Project | components/HealthChart.tsx:30 | the values have the data's length, and value `i` is the chosen metric of sample `i` |
| HealthChart.TwoDigitMinutes | components/HealthChart.tsx:33 | padded minutes are two digits that read back as the minute |
| HealthChart.Label | components/HealthChart.tsx:33 | a label is the unpadded hour, a colon and two minute digits |
| HealthChart.LabelRoundTrip | components/HealthChart.tsx:33 | reading a label back gives its local hour and minute |
| HealthChart.Labels | components/HealthChart.tsx:31-34 | label `i` is the label of sample `i`'s local time |
| HealthChart.LabelStep | components/HealthChart.tsx:37 | `Math.ceil(n / 6)`: the least `k` with `6k >= n` |
| HealthChart.KeptIndicesSpec | components/HealthChart.tsx:37 | the filter keeps exactly the indices that are multiples of the step, in increasing order |
| HealthChart.KeptAt | components/HealthChart.tsx:37 | the `j`-th kept index is `j` times the step |
| HealthChart.KeptCount | components/HealthChart.tsx:37 | kept entry `j` exists iff `j` times the step is an index |
| HealthChart.AtMostSixKept | components/HealthChart.tsx:37 | at most six labels survive the filter |
| HealthChart.Subsample | components/HealthChart.tsx:37 | the filtered labels number at most six and start with the first label when there is one |
| HealthChart.SubsampleAt | components/HealthChart.tsx:37 | element `j` of the subsample exists iff `j*step < n`, and is label `j*step` |
| HealthChart.SubsampleOfDay | components/HealthChart.tsx:37-40 | for 24 samples, labels 0, 4, 8, 12, 16 and 20 are kept and nothing is padded |
| HealthChart.DisplayLabels | components/HealthChart.tsx:37-40 | the padding loop yields exactly six labels: the subsample followed by empty labels |
| HealthChart.BuildChartData | components/HealthChart.tsx:26-51 | the chart data holds six labels: the subsample of the sorted samples' labels, the first being the oldest sample's when there is data, followed by empty labels; and the metric of every sample in time order |
| AlertItem.SeverityColour | components/AlertItem.tsx:35-46 | critical maps to danger, high to warning, medium to info and low to success, each iff |
| AlertItem.AlertIcon | components/AlertItem.tsx:17-33 | hydration maps to Droplets, fatigue to Battery, heart rate to Heart, emergency to AlertTriangle and performance to Bell, each iff |
| AlertItem.SeverityColourOrder | components/AlertItem.tsx:35-46 | the colour map is injective and orders severities the way urgency orders colours |
| AlertItem.RenderAlert | components/AlertItem.tsx:53-73 | the icon is the type's icon in the severity colour, on a tint of that colour; the unread style and the unread dot appear iff the alert is unread, and the dot has the severity colour |
| HealthMetricCard.CardStatus | components/HealthMetricCard.tsx:22 | `status` defaults to normal |
| HealthMetricCard.CardUnit | components/HealthMetricCard.tsx:20 | `unit` defaults to the empty string |
| HealthMetricCard.StatusColour | components/HealthMetricCard.tsx:27-36 | critical maps to danger, warning to warning and normal to success, each iff |
| HealthMetricCard.MetricIcon | components/HealthMetricCard.tsx:38-54 | heart rate maps to Heart, hydration to Droplets, fatigue to Battery and oxygen to Activity, each iff |
| HealthMetricCard.RenderMetricCard | components/HealthMetricCard.tsx:17-75 | the icon of the metric, in the colour of the (defaulted) status; with no status it is success; the unit is the defaulted unit |
| HealthMetricCard.StatusColourMonotone | components/HealthMetricCard.tsx:27-36 | a more severe status never gets a less urgent colour |
| PerformanceInsightCard.PriorityColour | components/PerformanceInsightCard.tsx:35-44 | high maps to warning, medium to info and low to success, each iff; never danger |
| PerformanceInsightCard.InsightIcon | components/PerformanceInsightCard.tsx:17-33 | recovery maps to Brain, training to Dumbbell, nutrition to Apple and sleep to Moon, each iff |
| PerformanceInsightCard.RenderInsight | components/PerformanceInsightCard.tsx:51-78 | the icon, its tint, the recommendation text and its tint all use the priority colour |
| PerformanceInsightCard.PriorityAgreesWithSeverity | components/PerformanceInsightCard.tsx:35-44 | an insight priority gets the colour of the alert severity of the same name |
| Strings.NatToString | utils/mockData.ts:99 | a natural number renders as a non-empty digit string, without a leading zero unless it is 0 |
| Strings.DigitsValueOfNatToString | utils/mockData.ts:99 | reading a rendered natural number back gives the number |
| Strings.IntToString | utils/mockData.ts:99 | an integer renders as its digits, with a leading `-` exactly when it is negative |
| Strings.NonDigitNotInIntToString | utils/mockData.ts:99 | a rendered integer contains no character other than digits and a leading minus |
| Strings.IntToStringInjective | utils/mockData.ts:99 | different timestamps render differently |

## Left out

- Rendering is not modelled: JSX, `StyleSheet.create`, `useColorScheme`, and the light and dark
  `Colors` palettes. Colours and icons are enums. The translucent tints (`${colour}20`,
  `${colour}10`) are modelled as the colour they tint.
- `app/(tabs)/index.tsx` is not part of this model. Its screen-level status functions repeat the
  athlete card's thresholds and add an oxygen status.
- `constants/Theme.ts` is not part of this model: it holds style constants only.
- `components/EmergencySOSButton.tsx` is not part of this model: it is an animation driven by the
  `Animated` library.
- `formatDistance` and the `toLocaleDateString`/`toLocaleTimeString` calls are not modelled: they
  are floating point and locale formatting.
- `LineChart` from react-native-chart-kit and the profile-image URLs are foreign and presentational.
  The user fixtures carry no image.
- `Math.random`, `Date.now` and the device time zone are parameters, as described above.
- MockData.GenerateMockHealthData: each Math.random() call gets its own parameter.
  - The sleep value's draw is a parameter even at hours where the source makes no call.
  - When several generator calls share one random stream (the team `reduce`), the order in which
    they consume it is not captured.
- MockData.Sample: `sleepHours` is the exact real `7 + 2u`; floating-point rounding is not modelled.
- MockData.BuildTeamHealthData: each call of the generator gets its own clock reading and draws
  (`Generation`). Load-time evaluation of the module fixtures is not modelled.
- HealthChart.SortByTimestamp: the stability of the JavaScript sort (samples with equal timestamps
  keep their order) is not stated. Sortedness and the permutation are.
- HealthChart.SortByTimestamp: the copy `[...data]`, which leaves the input untouched, is implicit
  in the value model.
- DeviceConnectionCard.FormatLastSynced and WorkoutCard.FormatDuration: timestamps and durations are
  integers, so JavaScript NaN and fractional milliseconds are out of scope.
- WorkoutCard.SplitDuration: `remainingMinutes` uses Dafny's remainder, which is never negative.
  JavaScript's `%` truncates, so the two differ for negative minutes. The text shows
  `remainingMinutes` only when hours are positive, and there they agree.
- WorkoutCard.FormatDurationRoundTrip: proved for non-negative durations only.
- MockData.GetHealthDataForTimeRange: the team map is a plain JavaScript object, so
  `teamHealthData[userId] || []` returns an inherited property for ids such as `toString`,
  `constructor` or `__proto__`, and the `filter` call then throws. The model's lookup treats these
  ids like any unknown id and returns the empty list. For `getLatestHealthData` both give the
  placeholder.
- HealthMetricCard.MetricIcon: the `default` branch is unreachable for the four declared metric
  types, so it adds no case.
