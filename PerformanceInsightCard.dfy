/** The insight card's priority colour and type icon (components/PerformanceInsightCard.tsx). */
module PerformanceInsightCard {
  import opened Types
  import opened Display
  import AlertItem

  /** `getPriorityColor`. */
  function PriorityColour(p: Priority): (c: Colour)
    ensures c == Warning <==> p == Priority.High
    ensures c == Info <==> p == Priority.Medium
    ensures c == Success <==> p == Priority.Low
    ensures c != Danger
  {
    match p
    case High => Warning
    case Medium => Info
    case Low => Success
  }

  /** `getInsightIcon`'s choice of symbol. */
  function InsightIcon(t: InsightType): (i: Icon)
    ensures t == Recovery <==> i == Brain
    ensures t == Training <==> i == Dumbbell
    ensures t == Nutrition <==> i == Apple
    ensures t == Sleep <==> i == Moon
  {
    match t
    case Recovery => Brain
    case Training => Dumbbell
    case Nutrition => Apple
    case Sleep => Moon
  }

  datatype InsightView = InsightView(
    icon: Icon,
    iconColour: Colour,
    iconBackground: Colour,
    recommendationColour: Colour,
    recommendationBackground: Colour)

  function RenderInsight(insight: PerformanceInsight): (v: InsightView)
    ensures v.icon == InsightIcon(insight.insightType)
    ensures v.iconColour == PriorityColour(insight.priority)
    ensures v.recommendationColour == v.iconColour
    ensures v.iconBackground == v.iconColour && v.recommendationBackground == v.iconColour
  {
    var colour := PriorityColour(insight.priority);
    InsightView(InsightIcon(insight.insightType), colour, colour, colour, colour)
  }

  /** An insight priority and an alert severity of the same name get the same colour. */
  lemma PriorityAgreesWithSeverity()
    ensures PriorityColour(Priority.Low) == AlertItem.SeverityColour(Severity.Low)
    ensures PriorityColour(Priority.Medium) == AlertItem.SeverityColour(Severity.Medium)
    ensures PriorityColour(Priority.High) == AlertItem.SeverityColour(Severity.High)
  {
  }
}
