/**
 * Calendar dates and the "day_month_year" keys built from them.
 *
 * JavaScript's Date supplies getFullYear(), a 0-based getMonth(), the day of
 * the month getDate() and the weekday getDay() (0 is Sunday). The slot
 * generator and the booking call build their keys from DIFFERENT day fields:
 * LookupKey uses the weekday, BookingKey the day of the month. KeysAgree
 * shows exactly when the two coincide.
 */
module DateKeys {
  import opened TextFormat

  /** One calendar day as JavaScript's Date reports it. */
  datatype CalendarDay = CalendarDay(year: nat, month: nat, dayOfMonth: nat, weekday: nat)

  predicate ValidDay(d: CalendarDay) {
    d.month < 12 && 1 <= d.dayOfMonth <= 31 && d.weekday < 7
  }

  /** `a + "_" + b + "_" + c` on decimal texts. */
  function JoinKey(a: nat, b: nat, c: nat): (k: string)
    ensures |k| >= 5
  {
    NatToString(a) + ("_" + (NatToString(b) + ("_" + NatToString(c))))
  }

  /** The key under which the slot generator looks up booked times:
      weekday, then 1-based month, then year. */
  function LookupKey(d: CalendarDay): (k: string)
  {
    JoinKey(d.weekday, d.month + 1, d.year)
  }

  /** The slotDate sent with a booking: day of the month, 1-based month, year. */
  function BookingKey(d: CalendarDay): (k: string)
  {
    JoinKey(d.dayOfMonth, d.month + 1, d.year)
  }

  /** A digit string followed by an underscore is determined by the whole. */
  lemma SplitAtUnderscore(a: string, b: string, c: string, d: string)
    requires AllDigits(a) && AllDigits(c)
    requires a + ("_" + b) == c + ("_" + d)
    ensures a == c && b == d
  {
    var x := a + ("_" + b);
    assert x[|a|] == '_';
    assert (c + ("_" + d))[|c|] == '_';
    assert |a| == |c|;
    assert a == x[..|a|];
    assert c == x[..|c|];
    assert b == x[|a| + 1..];
    assert d == x[|c| + 1..];
  }

  /** Two keys built from digit strings are equal only part by part. */
  lemma JoinParts(sa: string, sb: string, sc: string, sa': string, sb': string, sc': string)
    requires AllDigits(sa) && AllDigits(sb) && AllDigits(sa') && AllDigits(sb')
    requires sa + ("_" + (sb + ("_" + sc))) == sa' + ("_" + (sb' + ("_" + sc')))
    ensures sa == sa' && sb == sb' && sc == sc'
  {
    SplitAtUnderscore(sa, sb + ("_" + sc), sa', sb' + ("_" + sc'));
    SplitAtUnderscore(sb, sc, sb', sc');
  }

  /** Keys are injective: equal keys come from equal triples. */
  lemma JoinKeyInjective(a: nat, b: nat, c: nat, a': nat, b': nat, c': nat)
    ensures JoinKey(a, b, c) == JoinKey(a', b', c') <==> a == a' && b == b' && c == c'
  {
    if JoinKey(a, b, c) == JoinKey(a', b', c') {
      JoinParts(NatToString(a), NatToString(b), NatToString(c), NatToString(a'), NatToString(b'), NatToString(c'));
      NatToStringInjective(a, a');
      NatToStringInjective(b, b');
      NatToStringInjective(c, c');
    }
  }

  /** The generator's key and the booking key name the same entry exactly
      when the weekday number equals the day of the month. */
  lemma KeysAgree(d: CalendarDay)
    ensures LookupKey(d) == BookingKey(d) <==> d.weekday == d.dayOfMonth
  {
    JoinKeyInjective(d.weekday, d.month + 1, d.year, d.dayOfMonth, d.month + 1, d.year);
  }

  /** Monday 10 June 2024: booked under "10_6_2024", looked up under "1_6_2024",
      which is also the booking key of Saturday 1 June 2024. */
  lemma JuneTenthKeys()
    ensures BookingKey(CalendarDay(2024, 5, 10, 1)) == "10_6_2024"
    ensures LookupKey(CalendarDay(2024, 5, 10, 1)) == "1_6_2024"
    ensures BookingKey(CalendarDay(2024, 5, 1, 6)) == "1_6_2024"
  {
    assert NatToString(2024) == "2024" by {
      assert NatToString(20) == "20";
      assert NatToString(202) == "202";
    }
    assert NatToString(10) == "10";
  }
}
