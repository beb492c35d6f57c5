/** The synthetic vitals generator, the mock fixtures and the queries over them
    (utils/mockData.ts). The clock reading, the time zone and every `Math.random()` result
    are parameters, so each operation is deterministic. */
module MockData {
  import opened Wrappers
  import opened Strings
  import opened Types

  const MinuteMs: int := 60000
  const HourMs: int := 3600000
  const DayMs: int := 86400000

  /** The generator's default `hoursCount`. */
  const DefaultHoursCount: int := 24

  /** A result of `Math.random()`. */
  type Random = u: real | 0.0 <= u < 1.0

  /** `Math.floor(Math.random() * k)`: a whole number from 0 to k - 1. */
  function Draw(u: Random, k: nat): (d: int)
    requires k > 0
    ensures 0 <= d < k
  {
    assert 0.0 <= u * k as real < k as real by {
      assert u * k as real <= u * k as real + (1.0 - u) * k as real;
    }
    (u * k as real).Floor
  }

  /** The `Math.random()` results one iteration of the generator consumes, in source order;
      `sleep` is consumed only when the sample gets `sleepHours`. */
  datatype Randoms = Randoms(
    heartRate: Random,
    hydration: Random,
    fatigue: Random,
    oxygen: Random,
    steps: Random,
    calories: Random,
    distance: Random,
    sleep: Random)

  // Time-of-day windows of the local hour.
  predicate IsMorning(h: Hour) { h >= 6 && h <= 9 }
  predicate IsWorkout(h: Hour) { h >= 17 && h <= 19 }
  predicate IsNight(h: Hour) { h >= 22 || h <= 5 }
  /** The hours whose samples carry `sleepHours`. */
  predicate HasSleep(h: Hour) { h >= 22 || h <= 7 }

  /** `Math.max(lo, Math.min(hi, x))`. */
  function Clamp(x: int, lo: int, hi: int): (r: int)
    requires lo <= hi
    ensures lo <= r <= hi
    ensures lo <= x <= hi ==> r == x
    ensures x < lo ==> r == lo
    ensures x > hi ==> r == hi
  {
    var m := if hi < x then hi else x;
    if lo > m then lo else m
  }

  // The total shift each metric receives: the sum of the adjustments of every window the
  // hour falls in, as the three independent `if`s of the loop add them up.
  function HeartRateShift(h: Hour): int {
    (if IsMorning(h) then 10 else 0) + (if IsWorkout(h) then 30 else 0) + (if IsNight(h) then -15 else 0)
  }

  function HydrationShift(h: Hour): int {
    if IsWorkout(h) then -15 else 0
  }

  function FatigueShift(h: Hour): int {
    (if IsMorning(h) then -10 else 0) + (if IsWorkout(h) then 20 else 0) + (if IsNight(h) then 10 else 0)
  }

  /** `health-${userId}-${timestamp}`. */
  function HealthId(userId: string, timestamp: int): string {
    "health-" + userId + "-" + IntToString(timestamp)
  }

  /** One user's ids tell their timestamps apart. */
  lemma HealthIdInjective(userId: string, t: int, u: int)
    ensures HealthId(userId, t) == HealthId(userId, u) <==> t == u
  {
    if HealthId(userId, t) == HealthId(userId, u) {
      var p := "health-" + userId + "-";
      CommonPrefix(p, IntToString(t), IntToString(u));
      IntToStringInjective(t, u);
    }
  }

  predicate VitalsInRange(d: HealthData) {
    && 55 <= d.heartRate <= 180
    && 50 <= d.hydrationLevel <= 100
    && 10 <= d.fatigueLevel <= 90
    && 95 <= d.oxygenSaturation <= 99
    && 500 <= d.steps <= 1499
    && 50 <= d.calories <= 199
    && 300 <= d.distance <= 999
  }

  /** The sample iteration `i` of the generator produces from its random results `r`. */
  function Sample(userId: string, now: int, i: nat, tz: TimeZone, r: Randoms): (d: HealthData)
    ensures d.userId == userId && d.id == HealthId(userId, d.timestamp)
    ensures d.timestamp == now - i * HourMs
    ensures VitalsInRange(d)
    ensures d.sleepHours.Some? <==> HasSleep(tz(d.timestamp).hour)
    ensures d.sleepHours.Some? ==> 7.0 <= d.sleepHours.value < 9.0
  {
    var ts := now - i * HourMs;
    var h := tz(ts).hour;
    HealthData(
      HealthId(userId, ts), userId, ts,
      Clamp(60 + Draw(r.heartRate, 40) + HeartRateShift(h), 55, 180),
      Clamp(70 + Draw(r.hydration, 30) + HydrationShift(h), 50, 100),
      Clamp(20 + Draw(r.fatigue, 30) + FatigueShift(h), 10, 90),
      95 + Draw(r.oxygen, 5),
      500 + Draw(r.steps, 1000),
      50 + Draw(r.calories, 150),
      300 + Draw(r.distance, 700),
      if HasSleep(h) then Some(7.0 + r.sleep * 2.0) else None)
  }

  /** Consecutive samples are exactly one hour apart, newest first. */
  predicate HourlyDescending(s: seq<HealthData>) {
    forall j :: 0 <= j < |s| - 1 ==> s[j].timestamp == s[j + 1].timestamp + HourMs
  }

  predicate OwnedBy(s: seq<HealthData>, userId: string) {
    forall j :: 0 <= j < |s| ==> s[j].userId == userId
  }

  /** What `generateMockHealthData(userId, hoursCount)` returns when the clock reads `now`
      and the random source yields `rnd`, one record per iteration. */
  function Generated(userId: string, hoursCount: int, now: int, tz: TimeZone, rnd: seq<Randoms>): (data: seq<HealthData>)
    requires hoursCount <= |rnd|
    ensures |data| == if hoursCount > 0 then hoursCount else 0
    ensures HourlyDescending(data) && OwnedBy(data, userId)
    ensures data != [] ==> data[0].timestamp == now
    ensures forall j :: 0 <= j < |data| ==> VitalsInRange(data[j])
  {
    seq(if hoursCount > 0 then hoursCount else 0, j requires 0 <= j < |rnd| => Sample(userId, now, j, tz, rnd[j]))
  }

  /** `generateMockHealthData`: one loop iteration per hour going back from `now`. */
  method GenerateMockHealthData(userId: string, hoursCount: int, now: int, tz: TimeZone, rnd: seq<Randoms>)
    returns (data: seq<HealthData>)
    requires hoursCount <= |rnd|
    ensures data == Generated(userId, hoursCount, now, tz, rnd)
  {
    data := [];
    var i := 0;
    while i < hoursCount
      invariant 0 <= i <= if hoursCount > 0 then hoursCount else 0
      invariant |data| == i
      invariant forall j :: 0 <= j < i ==> data[j] == Sample(userId, now, j, tz, rnd[j])
    {
      var sample := GenerateSample(userId, now, i, tz, rnd[i]);
      data := data + [sample];
      i := i + 1;
    }
  }

  /** One iteration of the generator's loop: sample `i`, drawn from `r`. */
  method GenerateSample(userId: string, now: int, i: nat, tz: TimeZone, r: Randoms) returns (sample: HealthData)
    ensures sample == Sample(userId, now, i, tz, r)
  {
    var timestamp := now - i * HourMs;
    var timeOfDay := tz(timestamp).hour;

    ghost var h: Hour := timeOfDay;
    var heartRate := 60 + Draw(r.heartRate, 40);
    var hydrationLevel := 70 + Draw(r.hydration, 30);
    var fatigueLevel := 20 + Draw(r.fatigue, 30);
    ghost var hr0, hyd0, fat0 := heartRate, hydrationLevel, fatigueLevel;

    if timeOfDay >= 6 && timeOfDay <= 9 {
      heartRate := heartRate + 10;
      fatigueLevel := fatigueLevel - 10;
    }
    if timeOfDay >= 17 && timeOfDay <= 19 {
      heartRate := heartRate + 30;
      fatigueLevel := fatigueLevel + 20;
      hydrationLevel := hydrationLevel - 15;
    }
    if timeOfDay >= 22 || timeOfDay <= 5 {
      heartRate := heartRate - 15;
      fatigueLevel := fatigueLevel + 10;
    }
    assert heartRate == hr0 + HeartRateShift(h);
    assert fatigueLevel == fat0 + FatigueShift(h);
    assert hydrationLevel == hyd0 + HydrationShift(h);

    heartRate := Clamp(heartRate, 55, 180);
    hydrationLevel := Clamp(hydrationLevel, 50, 100);
    fatigueLevel := Clamp(fatigueLevel, 10, 90);

    var sleepHours := if timeOfDay >= 22 || timeOfDay <= 7 then Some(7.0 + r.sleep * 2.0) else None;
    sample := HealthData(
      "health-" + userId + "-" + IntToString(timestamp), userId, timestamp,
      heartRate, hydrationLevel, fatigueLevel,
      95 + Draw(r.oxygen, 5), 500 + Draw(r.steps, 1000),
      50 + Draw(r.calories, 150), 300 + Draw(r.distance, 700),
      sleepHours);
  }

  /** The three adjustment windows never overlap, so each metric gets at most one shift. */
  lemma WindowsDisjoint(h: Hour)
    ensures !(IsMorning(h) && IsWorkout(h))
    ensures !(IsMorning(h) && IsNight(h))
    ensures !(IsWorkout(h) && IsNight(h))
    ensures HeartRateShift(h) == if IsMorning(h) then 10 else if IsWorkout(h) then 30 else if IsNight(h) then -15 else 0
    ensures FatigueShift(h) == if IsMorning(h) then -10 else if IsWorkout(h) then 20 else if IsNight(h) then 10 else 0
  {
  }

  /** At hour 18 (a workout hour) the base draws get +30 heart rate, -15 hydration and +20
      fatigue, and none of the three needs clamping. */
  lemma WorkoutHourSample(userId: string, now: int, i: nat, tz: TimeZone, r: Randoms)
    requires tz(now - i * HourMs).hour == 18
    ensures Sample(userId, now, i, tz, r).heartRate == 60 + Draw(r.heartRate, 40) + 30
    ensures Sample(userId, now, i, tz, r).hydrationLevel == 70 + Draw(r.hydration, 30) - 15
    ensures Sample(userId, now, i, tz, r).fatigueLevel == 20 + Draw(r.fatigue, 30) + 20
    ensures Sample(userId, now, i, tz, r).sleepHours == None
  {
  }

  /** Hours 6 and 7 get `sleepHours` and the morning shift, but not the night shift. */
  lemma EarlyMorningSample(userId: string, now: int, i: nat, tz: TimeZone, r: Randoms)
    requires tz(now - i * HourMs).hour in {6, 7}
    ensures Sample(userId, now, i, tz, r).sleepHours.Some?
    ensures Sample(userId, now, i, tz, r).heartRate == Clamp(60 + Draw(r.heartRate, 40) + 10, 55, 180)
    ensures Sample(userId, now, i, tz, r).fatigueLevel == Clamp(20 + Draw(r.fatigue, 30) - 10, 10, 90)
  {
  }

  /** Hourly spacing compounds: sample k is (k - j) hours older than sample j. */
  lemma {:induction false} HourlySpacing(s: seq<HealthData>, j: nat, k: nat)
    requires HourlyDescending(s) && j <= k < |s|
    ensures s[j].timestamp == s[k].timestamp + (k - j) * HourMs
    decreases k - j
  {
    if j < k {
      HourlySpacing(s, j + 1, k);
    }
  }

  lemma CommonPrefix(p: string, a: string, b: string)
    requires p + a == p + b
    ensures a == b
  {
    assert a == (p + a)[|p|..];
    assert b == (p + b)[|p|..];
  }

  /** No two samples of one generation share an id. */
  lemma GeneratedIdsDistinct(userId: string, hoursCount: int, now: int, tz: TimeZone, rnd: seq<Randoms>, j: nat, k: nat)
    requires hoursCount <= |rnd|
    requires j < k < |Generated(userId, hoursCount, now, tz, rnd)|
    ensures Generated(userId, hoursCount, now, tz, rnd)[j].id != Generated(userId, hoursCount, now, tz, rnd)[k].id
  {
    var data := Generated(userId, hoursCount, now, tz, rnd);
    HourlySpacing(data, j, k);
    HealthIdInjective(userId, data[j].timestamp, data[k].timestamp);
  }

  // ---- Fixtures -----------------------------------------------------------------------

  function CurrentUser(): User {
    User("user1", "Alex Johnson", "alex@example.com", Athlete, None, Some("team1"))
  }

  function CoachUser(): User {
    User("coach1", "Coach Sarah", "sarah@example.com", Coach, None, Some("team1"))
  }

  function TeamAthletes(): seq<User> {
    [ CurrentUser(),
      User("user2", "Michael Chen", "michael@example.com", Athlete, None, Some("team1")),
      User("user3", "Emma Wilson", "emma@example.com", Athlete, None, Some("team1")),
      User("user4", "James Rodriguez", "james@example.com", Athlete, None, Some("team1")) ]
  }

  /** `teamAthletes.map(athlete => athlete.id)`. */
  function AthleteIds(athletes: seq<User>): (ids: seq<string>)
    ensures |ids| == |athletes|
    ensures forall i :: 0 <= i < |athletes| ==> ids[i] == athletes[i].id
  {
    if athletes == [] then [] else [athletes[0].id] + AthleteIds(athletes[1..])
  }

  function TeamFixture(): Team {
    Team("team1", "Elite Runners", "coach1", AthleteIds(TeamAthletes()))
  }

  lemma TeamFixtureAthletes()
    ensures TeamFixture().athletes == ["user1", "user2", "user3", "user4"]
    ensures CoachUser().id == TeamFixture().coachId
  {
  }

  /** The clock reading and random results of one call of the generator. */
  datatype Generation = Generation(now: int, rnd: seq<Randoms>)

  /** No later athlete of the list has the same id as athlete `i` (so its data is kept). */
  predicate LastWithId(athletes: seq<User>, i: nat, upTo: nat) {
    forall k :: i < k < upTo && k < |athletes| ==> athletes[k].id != athletes[i].id
  }

  /** The generation the reduce stores for athlete `j`. */
  function AthleteGeneration(athletes: seq<User>, tz: TimeZone, calls: seq<Generation>, j: nat): seq<HealthData>
    requires j < |athletes| == |calls| && DefaultHoursCount <= |calls[j].rnd|
  {
    Generated(athletes[j].id, DefaultHoursCount, calls[j].now, tz, calls[j].rnd)
  }

  predicate KeysUpTo(acc: map<string, seq<HealthData>>, athletes: seq<User>, n: nat)
    requires n <= |athletes|
  {
    acc.Keys == (set j | 0 <= j < n :: athletes[j].id)
  }

  /** Every stored list is a full 24-sample series of the user it is filed under. */
  predicate EntriesOwned(acc: map<string, seq<HealthData>>) {
    forall id :: id in acc ==> OwnedBy(acc[id], id) && |acc[id]| == DefaultHoursCount
  }

  /** Every athlete among the first `n` whose id does not recur later holds its own generation. */
  predicate EntriesGenerated(acc: map<string, seq<HealthData>>, athletes: seq<User>, tz: TimeZone, calls: seq<Generation>, n: nat)
    requires n <= |athletes| == |calls|
    requires forall i :: 0 <= i < |calls| ==> DefaultHoursCount <= |calls[i].rnd|
  {
    forall j :: 0 <= j < n && LastWithId(athletes, j, n) ==>
      athletes[j].id in acc && acc[athletes[j].id] == AthleteGeneration(athletes, tz, calls, j)
  }

  lemma IdsExtend(athletes: seq<User>, n: nat)
    requires n < |athletes|
    ensures (set j | 0 <= j < n + 1 :: athletes[j].id) == (set j | 0 <= j < n :: athletes[j].id) + {athletes[n].id}
  {
  }

  lemma KeysStep(acc: map<string, seq<HealthData>>, athletes: seq<User>, n: nat, data: seq<HealthData>)
    requires n < |athletes| && KeysUpTo(acc, athletes, n)
    ensures KeysUpTo(acc[athletes[n].id := data], athletes, n + 1)
  {
    IdsExtend(athletes, n);
  }

  lemma OwnedStep(acc: map<string, seq<HealthData>>, id: string, data: seq<HealthData>)
    requires EntriesOwned(acc) && OwnedBy(data, id) && |data| == DefaultHoursCount
    ensures EntriesOwned(acc[id := data])
  {
  }

  lemma GeneratedStep(acc: map<string, seq<HealthData>>, athletes: seq<User>, tz: TimeZone, calls: seq<Generation>, n: nat)
    requires n < |athletes| == |calls|
    requires forall i :: 0 <= i < |calls| ==> DefaultHoursCount <= |calls[i].rnd|
    requires EntriesGenerated(acc, athletes, tz, calls, n)
    ensures EntriesGenerated(acc[athletes[n].id := AthleteGeneration(athletes, tz, calls, n)], athletes, tz, calls, n + 1)
  {
    var acc' := acc[athletes[n].id := AthleteGeneration(athletes, tz, calls, n)];
    forall j | 0 <= j < n + 1 && LastWithId(athletes, j, n + 1)
      ensures athletes[j].id in acc' && acc'[athletes[j].id] == AthleteGeneration(athletes, tz, calls, j)
    {
      if j < n {
        assert LastWithId(athletes, j, n) && athletes[j].id != athletes[n].id;
      }
    }
  }

  /** The `teamHealthData` reduce: each athlete's id is bound to a fresh 24-hour generation;
      a repeated id keeps the data of its last occurrence. */
  method BuildTeamHealthData(athletes: seq<User>, tz: TimeZone, calls: seq<Generation>)
    returns (acc: map<string, seq<HealthData>>)
    requires |calls| == |athletes|
    requires forall i :: 0 <= i < |calls| ==> DefaultHoursCount <= |calls[i].rnd|
    ensures acc.Keys == set i | 0 <= i < |athletes| :: athletes[i].id
    ensures EntriesOwned(acc)
    ensures forall i :: 0 <= i < |athletes| && LastWithId(athletes, i, |athletes|) ==>
              acc[athletes[i].id] == AthleteGeneration(athletes, tz, calls, i)
  {
    acc := map[];
    var i := 0;
    while i < |athletes|
      invariant 0 <= i <= |athletes|
      invariant KeysUpTo(acc, athletes, i)
      invariant EntriesOwned(acc)
      invariant EntriesGenerated(acc, athletes, tz, calls, i)
    {
      var id := athletes[i].id;
      var data := GenerateMockHealthData(id, DefaultHoursCount, calls[i].now, tz, calls[i].rnd);
      KeysStep(acc, athletes, i, data);
      OwnedStep(acc, id, data);
      GeneratedStep(acc, athletes, tz, calls, i);
      acc := acc[id := data];
      i := i + 1;
    }
  }

  /** The module-level data the queries read: the current user's own generation and the
      team's map. */
  datatype HealthStore = HealthStore(
    currentUserId: string,
    currentUserData: seq<HealthData>,
    teamData: map<string, seq<HealthData>>)

  /** The lookup both queries start with: the current user's data, else the team entry,
      else the empty list. */
  function UserHealthData(store: HealthStore, userId: string): (r: seq<HealthData>)
    ensures userId == store.currentUserId ==> r == store.currentUserData
    ensures userId != store.currentUserId && userId in store.teamData ==> r == store.teamData[userId]
    ensures userId != store.currentUserId && userId !in store.teamData ==> r == []
    ensures StoreOwned(store) ==> OwnedBy(r, userId)
  {
    if userId == store.currentUserId then store.currentUserData
    else if userId in store.teamData then store.teamData[userId]
    else []
  }

  /** Every list in the store belongs to the user it is filed under. */
  predicate StoreOwned(store: HealthStore) {
    && OwnedBy(store.currentUserData, store.currentUserId)
    && forall id :: id in store.teamData ==> OwnedBy(store.teamData[id], id)
  }

  /** The all-zeros record returned when a user has no data. */
  function NoData(userId: string, now: int): (d: HealthData)
    ensures d.id == "no-data" && d.userId == userId && d.timestamp == now
    ensures d.heartRate == 0 && d.hydrationLevel == 0 && d.fatigueLevel == 0 && d.oxygenSaturation == 0
    ensures d.steps == 0 && d.calories == 0 && d.distance == 0 && d.sleepHours.None?
  {
    HealthData("no-data", userId, now, 0, 0, 0, 0, 0, 0, 0, None)
  }

  /** `getLatestHealthData`: the head of the user's list, or the placeholder. */
  function GetLatestHealthData(store: HealthStore, userId: string, now: int): (d: HealthData)
    ensures UserHealthData(store, userId) == [] ==> d == NoData(userId, now)
    ensures UserHealthData(store, userId) != [] ==> d == UserHealthData(store, userId)[0]
    ensures StoreOwned(store) ==> d.userId == userId
  {
    var data := UserHealthData(store, userId);
    if |data| > 0 then data[0] else NoData(userId, now)
  }

  /** The head of an hourly series is its newest sample. */
  lemma LatestIsNewest(store: HealthStore, userId: string, now: int, j: nat)
    requires HourlyDescending(UserHealthData(store, userId))
    requires j < |UserHealthData(store, userId)|
    ensures UserHealthData(store, userId)[j].timestamp <= GetLatestHealthData(store, userId, now).timestamp
  {
    HourlySpacing(UserHealthData(store, userId), 0, j);
  }

  /** The samples of `data` with `startTime <= timestamp <= endTime`, in their original order. */
  function InTimeRange(data: seq<HealthData>, startTime: int, endTime: int): (r: seq<HealthData>)
    ensures |r| <= |data|
    ensures forall d :: d in r <==> d in data && startTime <= d.timestamp <= endTime
  {
    if data == [] then []
    else
      (if startTime <= data[0].timestamp <= endTime then [data[0]] else [])
      + InTimeRange(data[1..], startTime, endTime)
  }

  /** The filter commutes with concatenation, so it keeps the original order. */
  lemma {:induction false} InTimeRangeAppend(a: seq<HealthData>, b: seq<HealthData>, startTime: int, endTime: int)
    ensures InTimeRange(a + b, startTime, endTime) == InTimeRange(a, startTime, endTime) + InTimeRange(b, startTime, endTime)
  {
    if a == [] {
      assert a + b == b;
    } else {
      assert (a + b)[0] == a[0];
      assert (a + b)[1..] == a[1..] + b;
      InTimeRangeAppend(a[1..], b, startTime, endTime);
    }
  }

  /** `getHealthDataForTimeRange`; an absent `endTime` defaults to the clock reading. */
  function GetHealthDataForTimeRange(store: HealthStore, userId: string, startTime: int, endTime: Option<int>, now: int)
    : (r: seq<HealthData>)
    ensures forall d :: d in r <==>
              d in UserHealthData(store, userId) && startTime <= d.timestamp <= endTime.GetOr(now)
  {
    InTimeRange(UserHealthData(store, userId), startTime, endTime.GetOr(now))
  }

  /** The number of alerts not yet read. */
  function UnreadCount(alerts: seq<Alert>): (n: nat)
    ensures n <= |alerts|
    ensures n == 0 <==> forall j :: 0 <= j < |alerts| ==> alerts[j].read
    ensures n == |alerts| <==> forall j :: 0 <= j < |alerts| ==> !alerts[j].read
  {
    if alerts == [] then 0
    else (if alerts[0].read then 0 else 1) + UnreadCount(alerts[1..])
  }

  lemma {:induction false} UnreadCountAppend(a: seq<Alert>, b: seq<Alert>)
    ensures UnreadCount(a + b) == UnreadCount(a) + UnreadCount(b)
  {
    if a == [] {
      assert a + b == b;
    } else {
      assert (a + b)[0] == a[0];
      assert (a + b)[1..] == a[1..] + b;
      UnreadCountAppend(a[1..], b);
    }
  }

  // The fixtures' message and note texts.
  const HydrationAlertText: string := "Your hydration levels are dropping. Consider drinking water soon."
  const FatigueAlertText: string := "High fatigue detected. Consider reducing training intensity today."
  const HeartRateAlertText: string := "Your heart rate was elevated during your last workout. Take time to cool down properly."
  const PerformanceAlertText: string := "Your performance is improving! Keep up the good work."
  const RunningNotes: string := "Felt strong throughout the run. Good pace."
  const CyclingNotes: string := "Long steady ride. Focused on maintaining cadence."
  const SwimmingNotes: string := "Technique work. Focused on stroke efficiency."

  function AlertsFixture(now: int): seq<Alert> {
    [ Alert("alert1", "user1", Hydration,
        HydrationAlertText,
        now - 30 * MinuteMs, false, Severity.Medium),
      Alert("alert2", "user1", Fatigue,
        FatigueAlertText,
        now - 2 * HourMs, true, Severity.High),
      Alert("alert3", "user1", HeartRate,
        HeartRateAlertText,
        now - 5 * HourMs, false, Severity.Low),
      Alert("alert4", "user1", Performance,
        PerformanceAlertText,
        now - DayMs, true, Severity.Low) ]
  }

  /** `getUnreadAlertsCount()` over the alert fixture. */
  lemma FixtureUnreadAlerts(now: int)
    ensures UnreadCount(AlertsFixture(now)) == 2
  {
    var a := AlertsFixture(now);
    assert !a[0].read && a[1].read && !a[2].read && a[3].read;
    assert a[3..][1..] == [];
    assert a[2..][1..] == a[3..];
    assert a[1..][1..] == a[2..];
    assert UnreadCount(a[3..]) == 0;
    assert UnreadCount(a[2..]) == 1;
    assert UnreadCount(a[1..]) == 1;
  }

  function WorkoutsFixture(now: int): seq<Workout> {
    [ Workout("workout1", "user1", "Running", now - 25 * HourMs, Some(now - 24 * HourMs),
        Some(HourMs), Some(10000), Some(650), Some(145), Some(175),
        Some(RunningNotes)),
      Workout("workout2", "user1", "Cycling", now - 3 * DayMs, Some(now - 3 * DayMs + 2 * HourMs),
        Some(2 * HourMs), Some(40000), Some(1200), Some(135), Some(160),
        Some(CyclingNotes)),
      Workout("workout3", "user1", "Swimming", now - 5 * DayMs, Some(now - 5 * DayMs + 45 * MinuteMs),
        Some(45 * MinuteMs), Some(2000), Some(450), Some(130), Some(150),
        Some(SwimmingNotes)) ]
  }

  function DevicesFixture(now: int): seq<HealthDevice> {
    [ HealthDevice("device1", "user1", AppleWatch, "Apple Watch Series 7", true, Some(now - 15 * MinuteMs)),
      HealthDevice("device2", "user1", Garmin, "Garmin Forerunner 945", false, Some(now - 3 * DayMs)) ]
  }
}
