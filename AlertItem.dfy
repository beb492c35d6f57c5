/** The alert row's severity colour, type icon and unread marking (components/AlertItem.tsx). */
module AlertItem {
  import opened Wrappers
  import opened Types
  import opened Display

  /** `getSeverityColor`. */
  function SeverityColour(s: Severity): (c: Colour)
    ensures c == Danger <==> s == Severity.Critical
    ensures c == Warning <==> s == Severity.High
    ensures c == Info <==> s == Severity.Medium
    ensures c == Success <==> s == Severity.Low
  {
    match s
    case Critical => Danger
    case High => Warning
    case Medium => Info
    case Low => Success
  }

  /** `getAlertIcon`'s choice of symbol; `performance` takes the default bell. */
  function AlertIcon(t: AlertType): (i: Icon)
    ensures t == Hydration <==> i == Droplets
    ensures t == Fatigue <==> i == Battery
    ensures t == HeartRate <==> i == Heart
    ensures t == Emergency <==> i == AlertTriangle
    ensures t == Performance <==> i == Bell
  {
    match t
    case Hydration => Droplets
    case Fatigue => Battery
    case HeartRate => Heart
    case Emergency => AlertTriangle
    case Performance => Bell
  }

  function SeverityRank(s: Severity): nat {
    match s
    case Low => 0
    case Medium => 1
    case High => 2
    case Critical => 3
  }

  /** Severity and colour urgency are in the same order, so distinct severities look distinct. */
  lemma SeverityColourOrder(s: Severity, t: Severity)
    ensures SeverityRank(s) < SeverityRank(t) <==> Urgency(SeverityColour(s)) < Urgency(SeverityColour(t))
    ensures s != t ==> SeverityColour(s) != SeverityColour(t)
  {
  }

  /** What the row shows besides its text. */
  datatype AlertView = AlertView(
    icon: Icon,
    iconColour: Colour,
    iconBackground: Colour,
    unreadStyle: bool,
    unreadIndicator: Option<Colour>)

  function RenderAlert(a: Alert): (v: AlertView)
    ensures v.icon == AlertIcon(a.alertType)
    ensures v.iconColour == SeverityColour(a.severity) && v.iconBackground == v.iconColour
    ensures v.unreadStyle <==> !a.read
    ensures v.unreadIndicator.Some? <==> !a.read
    ensures v.unreadIndicator.Some? ==> v.unreadIndicator.value == v.iconColour
  {
    var colour := SeverityColour(a.severity);
    AlertView(AlertIcon(a.alertType), colour, colour, !a.read, if !a.read then Some(colour) else None)
  }
}
