/** The record shapes of the application (types/index.ts). Optional properties are `Option`s,
    string-literal unions are enumerations, and JavaScript numbers that the code treats as
    whole milliseconds, counts or percentages are `int`. */
module Types {
  import opened Wrappers

  /** The local wall-clock reading of a timestamp, as `new Date(ms)` reports it. */
  type Hour = h: int | 0 <= h < 24
  type Minute = m: int | 0 <= m < 60
  datatype LocalTime = LocalTime(hour: Hour, minute: Minute)

  /** The device's time zone: epoch milliseconds to local hour and minute. */
  type TimeZone = int -> LocalTime

  datatype UserRole = Athlete | Coach

  datatype User = User(
    id: string,
    name: string,
    email: string,
    role: UserRole,
    profileImage: Option<string>,
    teamId: Option<string>)

  datatype Team = Team(id: string, name: string, coachId: string, athletes: seq<string>)

  /** One timestamped vitals reading. */
  datatype HealthData = HealthData(
    id: string,
    userId: string,
    timestamp: int,
    heartRate: int,
    hydrationLevel: int,
    fatigueLevel: int,
    oxygenSaturation: int,
    steps: int,
    calories: int,
    distance: int,
    sleepHours: Option<real>)

  datatype AlertType = Hydration | Fatigue | HeartRate | Emergency | Performance

  datatype Severity = Low | Medium | High | Critical

  datatype Alert = Alert(
    id: string,
    userId: string,
    alertType: AlertType,
    message: string,
    timestamp: int,
    read: bool,
    severity: Severity)

  datatype Workout = Workout(
    id: string,
    userId: string,
    workoutType: string,
    startTime: int,
    endTime: Option<int>,
    duration: Option<int>,
    distance: Option<int>,
    calories: Option<int>,
    avgHeartRate: Option<int>,
    maxHeartRate: Option<int>,
    notes: Option<string>)

  datatype InsightType = Recovery | Training | Nutrition | Sleep

  datatype Priority = Low | Medium | High

  datatype PerformanceInsight = PerformanceInsight(
    id: string,
    userId: string,
    timestamp: int,
    insightType: InsightType,
    title: string,
    description: string,
    recommendation: string,
    priority: Priority)

  datatype DeviceType = AppleWatch | Fitbit | Garmin | GoogleFit | Other

  datatype HealthDevice = HealthDevice(
    id: string,
    userId: string,
    deviceType: DeviceType,
    name: string,
    connected: bool,
    lastSynced: Option<int>)
}
