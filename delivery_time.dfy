/** The delivery-time label shown on a restaurant card. */
module RestaurantCard {

  import opened Wrappers
  import opened Text

  /** `RestaurantCardView.deliveryTimeText` for a restaurant whose
      `deliveryTimeMinutes` is `minutes`. Swift's `/` and `%` are only
      applied to `minutes >= 60`, where they agree with Dafny's. */
  function DeliveryTimeText(minutes: int): (text: string)
    ensures |text| >= 5
    ensures text[|text| - 1] == 'n' <==> minutes == 1
  {
    if minutes >= 60 then
      var hours := minutes / 60;
      var remainingMinutes := minutes % 60;
      if remainingMinutes == 0 then
        (if hours == 1 then "1 hour" else NatToString(hours) + " hours")
      else
        NatToString(hours) + " hour " + NatToString(remainingMinutes) + " mins"
    else
      if minutes == 1 then "1 min" else IntToString(minutes) + " mins"
  }

  /** Reads a label back: "<n> min(s)" is n minutes, "<h> hour(s)" is h
      hours, "<h> hour <m> mins" is h hours and m minutes. */
  function ParseDeliveryTime(text: string): Option<int>
  {
    var w := Words(text);
    if |w| == 2 && (w[1] == "min" || w[1] == "mins") then ParseInteger(w[0])
    else if |w| == 2 && (w[1] == "hour" || w[1] == "hours") && IsNumeral(w[0]) then
      Some(60 * ParseDecimal(w[0]))
    else if |w| == 4 && IsNumeral(w[0]) && w[1] == "hour" && IsNumeral(w[2]) && w[3] == "mins" then
      Some(60 * ParseDecimal(w[0]) + ParseDecimal(w[2]))
    else None
  }

  /** Under an hour: "1 min", or the minutes and "mins". */
  lemma MinuteWords(minutes: int)
    requires minutes < 60
    ensures Words(DeliveryTimeText(minutes)) == [IntToString(minutes), if minutes == 1 then "min" else "mins"]
  {
    var n := IntToString(minutes);
    IntToStringHasNoSpace(minutes);
    if minutes == 1 {
      assert n == "1";
      assert DeliveryTimeText(minutes) == "1" + " " + "min";
      TwoWords("1", "min");
    } else {
      assert DeliveryTimeText(minutes) == n + " " + "mins";
      TwoWords(n, "mins");
    }
  }

  /** Whole hours: "1 hour", or the hours and "hours". */
  lemma WholeHourWords(minutes: int)
    requires minutes >= 60 && minutes % 60 == 0
    ensures Words(DeliveryTimeText(minutes)) == [NatToString(minutes / 60), if minutes == 60 then "hour" else "hours"]
  {
    var h := NatToString(minutes / 60);
    NumeralHasNoSpace(h);
    if minutes == 60 {
      assert NatToString(1) == "1";
      assert DeliveryTimeText(minutes) == "1" + " " + "hour";
      TwoWords("1", "hour");
    } else {
      assert DeliveryTimeText(minutes) == h + " " + "hours";
      TwoWords(h, "hours");
    }
  }

  /** Hours and a remainder: always the words "hour" and "mins", even for
      two or more hours or a single remaining minute. */
  lemma MixedWords(minutes: int)
    requires minutes >= 60 && minutes % 60 != 0
    ensures Words(DeliveryTimeText(minutes)) == [NatToString(minutes / 60), "hour", NatToString(minutes % 60), "mins"]
  {
    var h := NatToString(minutes / 60);
    var m := NatToString(minutes % 60);
    NumeralHasNoSpace(h);
    NumeralHasNoSpace(m);
    MixedText(minutes);
    FourWords(h, "hour", m, "mins");
  }

  lemma MixedText(minutes: int)
    requires minutes >= 60 && minutes % 60 != 0
    ensures DeliveryTimeText(minutes)
      == NatToString(minutes / 60) + " " + "hour" + " " + NatToString(minutes % 60) + " " + "mins"
  {
  }

  /** The label loses nothing: reading it back gives the minutes it was
      made from, so `hours * 60 + remainingMinutes == minutes`. */
  lemma DeliveryTimeRoundTrip(minutes: int)
    ensures ParseDeliveryTime(DeliveryTimeText(minutes)) == Some(minutes)
  {
    var text := DeliveryTimeText(minutes);
    if minutes < 60 {
      MinuteWords(minutes);
      ParseMinuteWords(text, minutes);
    } else if minutes % 60 == 0 {
      WholeHourWords(minutes);
      ParseHourWords(text, minutes / 60);
    } else {
      MixedWords(minutes);
      ParseMixedWords(text, minutes / 60, minutes % 60);
    }
  }

  lemma ParseMinuteWords(text: string, minutes: int)
    requires Words(text) == [IntToString(minutes), if minutes == 1 then "min" else "mins"]
    ensures ParseDeliveryTime(text) == Some(minutes)
  {
    ParseIntToString(minutes);
  }

  lemma ParseHourWords(text: string, hours: nat)
    requires hours >= 1
    requires Words(text) == [NatToString(hours), if hours == 1 then "hour" else "hours"]
    ensures ParseDeliveryTime(text) == Some(60 * hours)
  {
    ParseNatToString(hours);
    var w := Words(text);
    assert w[1] != "min" && w[1] != "mins" by {
      assert w[1][0] == 'h';
    }
  }

  lemma ParseMixedWords(text: string, hours: nat, remaining: nat)
    requires Words(text) == [NatToString(hours), "hour", NatToString(remaining), "mins"]
    ensures ParseDeliveryTime(text) == Some(60 * hours + remaining)
  {
    ParseNatToString(hours);
    ParseNatToString(remaining);
  }

  /** Different delivery times never share a label. */
  lemma DeliveryTimeInjective(m1: int, m2: int)
    requires DeliveryTimeText(m1) == DeliveryTimeText(m2)
    ensures m1 == m2
  {
    DeliveryTimeRoundTrip(m1);
    DeliveryTimeRoundTrip(m2);
  }

  /** The hour forms appear exactly from 60 minutes on, the mixed form
      exactly when the hours leave a remainder, "1 min" only for one
      minute and "1 hour" only for sixty. */
  lemma DeliveryTimeForms(minutes: int)
    ensures 'h' in DeliveryTimeText(minutes) <==> minutes >= 60
    ensures |Words(DeliveryTimeText(minutes))| == 4 <==> minutes >= 60 && minutes % 60 != 0
    ensures DeliveryTimeText(minutes) == "1 min" <==> minutes == 1
    ensures DeliveryTimeText(minutes) == "1 hour" <==> minutes == 60
  {
    HourLetter(minutes);
    if minutes < 60 {
      MinuteWords(minutes);
    } else if minutes % 60 == 0 {
      WholeHourWords(minutes);
    } else {
      MixedWords(minutes);
    }
    SingularForms(minutes);
  }

  lemma HourLetter(minutes: int)
    ensures 'h' in DeliveryTimeText(minutes) <==> minutes >= 60
  {
    var text := DeliveryTimeText(minutes);
    if minutes < 60 {
      var n := IntToString(minutes);
      IntToStringHasNoLetter(minutes);
      assert text == n + (if minutes == 1 then " min" else " mins");
    } else if minutes % 60 == 0 {
      assert text[|text| - 4] == 'h' || text[|text| - 5] == 'h';
    } else {
      var h := NatToString(minutes / 60);
      assert text == h + " hour " + NatToString(minutes % 60) + " mins";
      assert text[|h| + 1] == 'h';
    }
  }

  lemma IntToStringHasNoLetter(i: int)
    ensures 'h' !in IntToString(i)
  {
    var n := IntToString(i);
    if i < 0 {
      assert forall k :: 1 <= k < |n| ==> n[k] == NatToString(-i)[k - 1];
    }
  }

  lemma SingularForms(minutes: int)
    ensures DeliveryTimeText(minutes) == "1 min" <==> minutes == 1
    ensures DeliveryTimeText(minutes) == "1 hour" <==> minutes == 60
  {
    var text := DeliveryTimeText(minutes);
    if text == "1 min" {
      assert DeliveryTimeText(1) == "1 min";
      DeliveryTimeInjective(minutes, 1);
    }
    if text == "1 hour" {
      assert DeliveryTimeText(60) == "1 hour";
      DeliveryTimeInjective(minutes, 60);
    }
  }

  /** The quirk spelled out: 125 minutes read "2 hour 5 mins", with
      "hour" after two hours. */
  lemma TwoHourQuirk()
    ensures DeliveryTimeText(125) == "2 hour 5 mins"
  {
    assert NatToString(2) == "2" && NatToString(5) == "5";
  }

  /** 61 minutes read "1 hour 1 mins", with "mins" after one minute. */
  lemma OneMinuteQuirk()
    ensures DeliveryTimeText(61) == "1 hour 1 mins"
  {
    assert NatToString(1) == "1";
  }
}
