/** The metric card's default properties, status colour and icon
    (components/HealthMetricCard.tsx). */
module HealthMetricCard {
  import opened Wrappers
  import Display

  datatype Status = Normal | Warning | Critical

  datatype MetricType = HeartRate | Hydration | Fatigue | Oxygen

  /** The card's properties; `unit` and `status` may be omitted. */
  datatype MetricCardProps = MetricCardProps(
    metricType: MetricType,
    value: int,
    unit: Option<string>,
    title: string,
    status: Option<Status>)

  /** The `status = 'normal'` default. */
  function CardStatus(p: MetricCardProps): (s: Status)
    ensures p.status.Some? ==> s == p.status.value
    ensures p.status.None? ==> s == Normal
  {
    p.status.GetOr(Normal)
  }

  /** The `unit = ''` default. */
  function CardUnit(p: MetricCardProps): (u: string)
    ensures p.unit.Some? ==> u == p.unit.value
    ensures p.unit.None? ==> u == ""
  {
    p.unit.GetOr("")
  }

  /** `getStatusColor`. */
  function StatusColour(s: Status): (c: Display.Colour)
    ensures c == Display.Danger <==> s == Critical
    ensures c == Display.Warning <==> s == Warning
    ensures c == Display.Success <==> s == Normal
  {
    match s
    case Warning => Display.Warning
    case Critical => Display.Danger
    case Normal => Display.Success
  }

  /** `getIcon`'s choice of symbol. */
  function MetricIcon(t: MetricType): (i: Display.Icon)
    ensures t == HeartRate <==> i == Display.Heart
    ensures t == Hydration <==> i == Display.Droplets
    ensures t == Fatigue <==> i == Display.Battery
    ensures t == Oxygen <==> i == Display.Activity
  {
    match t
    case HeartRate => Display.Heart
    case Hydration => Display.Droplets
    case Fatigue => Display.Battery
    case Oxygen => Display.Activity
  }

  /** What the card shows besides the title and the number. */
  datatype MetricCardView = MetricCardView(icon: Display.Icon, iconColour: Display.Colour, unit: string)

  function RenderMetricCard(p: MetricCardProps): (v: MetricCardView)
    ensures v.icon == MetricIcon(p.metricType)
    ensures v.iconColour == StatusColour(CardStatus(p))
    ensures p.status.None? ==> v.iconColour == Display.Success
    ensures v.unit == CardUnit(p)
  {
    MetricCardView(MetricIcon(p.metricType), StatusColour(CardStatus(p)), CardUnit(p))
  }

  /** A more serious status never gets a milder colour. */
  lemma StatusColourMonotone(s: Status, t: Status)
    requires StatusRank(s) <= StatusRank(t)
    ensures Display.Urgency(StatusColour(s)) <= Display.Urgency(StatusColour(t))
  {
  }

  function StatusRank(s: Status): nat {
    match s
    case Normal => 0
    case Warning => 1
    case Critical => 2
  }
}
