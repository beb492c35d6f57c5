/** The "last synced" wording of the device card (components/DeviceConnectionCard.tsx). The
    clock reading `now` is a parameter. */
module DeviceConnectionCard {
  import opened Wrappers
  import opened Strings
  import MockData

  /** `${n} ${unit}${n !== 1 ? 's' : ''} ago`. */
  function Ago(n: int, unit: string): (r: string)
    ensures |r| >= 4 && r[|r| - 4..] == " ago"
  {
    IntToString(n) + " " + unit + (if n != 1 then "s" else "") + " ago"
  }

  /** `formatLastSynced`: a missing or zero timestamp is "Never synced" (`!timestamp`), an
      elapsed time under a minute (or in the future) is "Just now", and otherwise the whole
      number of the largest unit that fits, minutes below an hour and hours below a day. */
  function FormatLastSynced(timestamp: Option<int>, now: int): (r: string)
    ensures timestamp.None? || timestamp.value == 0 ==> r == "Never synced"
    ensures timestamp.Some? && timestamp.value != 0 ==>
      var diff := now - timestamp.value;
      && (diff < 60000 ==> r == "Just now")
      && (60000 <= diff < 3600000 ==>
            var m := diff / 60000;
            1 <= m <= 59 && m * 60000 <= diff < (m + 1) * 60000 && r == Ago(m, "minute"))
      && (3600000 <= diff < 86400000 ==>
            var h := diff / 3600000;
            1 <= h <= 23 && h * 3600000 <= diff < (h + 1) * 3600000 && r == Ago(h, "hour"))
      && (86400000 <= diff ==>
            var d := diff / 86400000;
            1 <= d && d * 86400000 <= diff < (d + 1) * 86400000 && r == Ago(d, "day"))
  {
    if timestamp.None? || timestamp.value == 0 then "Never synced"
    else
      var diff := now - timestamp.value;
      if diff < 60 * 1000 then "Just now"
      else if diff < 60 * 60 * 1000 then
        var minutes := diff / (60 * 1000);
        Ago(minutes, "minute")
      else if diff < 24 * 60 * 60 * 1000 then
        var hours := diff / (60 * 60 * 1000);
        Ago(hours, "hour")
      else
        var days := diff / (24 * 60 * 60 * 1000);
        Ago(days, "day")
  }

  /** The wording ends in "s ago" exactly when the count is not 1 (the unit words themselves do
      not end in 's'). */
  lemma {:induction false} PluralIffNotOne(n: int, unit: string)
    requires unit != [] && unit[|unit| - 1] != 's'
    ensures var r := Ago(n, unit); (|r| >= 5 && r[|r| - 5..] == "s ago") <==> n != 1
  {
    var r := Ago(n, unit);
    var head := IntToString(n) + " " + unit;
    if n != 1 {
      assert r == head + "s ago";
    } else {
      assert r == head + " ago";
      assert r[|r| - 5] == unit[|unit| - 1];
    }
  }

  /** The two fixture devices read "15 minutes ago" and "3 days ago" (any clock reading after
      the first days of 1970, so that neither timestamp is 0). */
  lemma FixtureDevices(now: int)
    requires now > 3 * MockData.DayMs
    ensures FormatLastSynced(MockData.DevicesFixture(now)[0].lastSynced, now) == "15 minutes ago"
    ensures FormatLastSynced(MockData.DevicesFixture(now)[1].lastSynced, now) == "3 days ago"
  {
    var devices := MockData.DevicesFixture(now);
    assert devices[0].lastSynced == Some(now - 900000);
    assert devices[1].lastSynced == Some(now - 259200000);
    assert IntToString(15) == "15" && IntToString(3) == "3";
    assert Ago(15, "minute") == "15 minutes ago";
    assert Ago(3, "day") == "3 days ago";
    assert FormatLastSynced(Some(now - 900000), now) == Ago(15, "minute");
    assert FormatLastSynced(Some(now - 259200000), now) == Ago(3, "day");
  }
}
