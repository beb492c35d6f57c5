/** The three threshold classifiers of the athlete card (components/AthleteCard.tsx) and the
    colours the card gives the latest sample of an athlete. */
module AthleteCard {
  import opened Display
  import opened Types
  import MockData
  import HealthMetricCard

  /** `getHeartRateStatus`: strictly above 160 is danger, strictly above 140 warning. */
  function HeartRateColour(rate: int): (c: Colour)
    ensures c == Danger <==> rate > 160
    ensures c == Warning <==> 140 < rate <= 160
    ensures c == Success <==> rate <= 140
  {
    if rate > 160 then Danger
    else if rate > 140 then Warning
    else Success
  }

  /** `getHydrationStatus`: strictly below 60 is danger, strictly below 75 warning. */
  function HydrationColour(level: int): (c: Colour)
    ensures c == Danger <==> level < 60
    ensures c == Warning <==> 60 <= level < 75
    ensures c == Success <==> level >= 75
  {
    if level < 60 then Danger
    else if level < 75 then Warning
    else Success
  }

  /** `getFatigueStatus`: strictly above 80 is danger, strictly above 60 warning. */
  function FatigueColour(level: int): (c: Colour)
    ensures c == Danger <==> level > 80
    ensures c == Warning <==> 60 < level <= 80
    ensures c == Success <==> level <= 60
  {
    if level > 80 then Danger
    else if level > 60 then Warning
    else Success
  }

  /** Every classifier answers danger, warning or success, never info. */
  lemma ClassifiersNeverInfo(x: int)
    ensures HeartRateColour(x) != Info && HydrationColour(x) != Info && FatigueColour(x) != Info
  {
  }

  /** The boundary values fall on the milder side: the comparisons are strict. */
  lemma ClassifierBoundaries()
    ensures HeartRateColour(161) == Danger && HeartRateColour(160) == Warning
    ensures HeartRateColour(141) == Warning && HeartRateColour(140) == Success
    ensures HydrationColour(59) == Danger && HydrationColour(60) == Warning
    ensures HydrationColour(74) == Warning && HydrationColour(75) == Success
    ensures FatigueColour(81) == Danger && FatigueColour(80) == Warning
    ensures FatigueColour(61) == Warning && FatigueColour(60) == Success
  {
  }

  /** Rising heart rate or fatigue never makes the colour milder; rising hydration never makes
      it more alarming. */
  lemma ClassifiersMonotone(a: int, b: int)
    requires a <= b
    ensures Urgency(HeartRateColour(a)) <= Urgency(HeartRateColour(b))
    ensures Urgency(FatigueColour(a)) <= Urgency(FatigueColour(b))
    ensures Urgency(HydrationColour(a)) >= Urgency(HydrationColour(b))
  {
  }

  /** The heart, droplet and battery icon colours of one card. */
  datatype MetricColours = MetricColours(heartRate: Colour, hydration: Colour, fatigue: Colour)

  /** The card classifies the first sample the store holds for the athlete; an athlete without
      data gets the all-zeros placeholder, which shows heart and battery green and droplets red. */
  function AthleteCardColours(store: MockData.HealthStore, athlete: User, now: int): (c: MetricColours)
    ensures var data := MockData.UserHealthData(store, athlete.id);
      && (data == [] ==> c == MetricColours(Success, Danger, Success))
      && (data != [] ==> c == MetricColours(HeartRateColour(data[0].heartRate),
                                            HydrationColour(data[0].hydrationLevel),
                                            FatigueColour(data[0].fatigueLevel)))
  {
    var latest := MockData.GetLatestHealthData(store, athlete.id, now);
    MetricColours(HeartRateColour(latest.heartRate), HydrationColour(latest.hydrationLevel), FatigueColour(latest.fatigueLevel))
  }

  /** Every colour a classifier shows is one the metric card's status table also shows. */
  lemma ClassifiersAreStatusColours(x: int)
    ensures exists s :: HealthMetricCard.StatusColour(s) == HeartRateColour(x)
    ensures exists s :: HealthMetricCard.StatusColour(s) == HydrationColour(x)
    ensures exists s :: HealthMetricCard.StatusColour(s) == FatigueColour(x)
  {
    assert HealthMetricCard.StatusColour(HealthMetricCard.Critical) == Danger;
    assert HealthMetricCard.StatusColour(HealthMetricCard.Warning) == Warning;
    assert HealthMetricCard.StatusColour(HealthMetricCard.Normal) == Success;
  }
}
