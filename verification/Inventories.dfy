/** Availability of a room type over a stay. */
module Inventories {
  import opened Results
  import opened Calendar
  import opened Stays

  datatype Allotment = Allotment(date: Day, allotment: int, booked: int)

  function Available(a: Allotment): (n: int)
    ensures n == a.allotment - a.booked || (n == 0 && a.booked > a.allotment)
    ensures a.booked > a.allotment ==> n == 0
  {
    if a.booked > a.allotment then 0 else a.allotment - a.booked
  }

  function ByDate(allotments: seq<Allotment>): map<Day, Allotment> {
    if allotments == [] then map[] else
      var last := allotments[|allotments| - 1];
      ByDate(allotments[..|allotments| - 1])[last.date := last]
  }

  /** The first complaint of `Check`, looking at the nights in order. */
  function FirstLack(byDate: map<Day, Allotment>, d: Day, checkOut: Day, units: int): Option<Error>
    requires d <= checkOut
    decreases checkOut - d
  {
    if d == checkOut then None
    else if d !in byDate then Some(NoInventory)
    else if Available(byDate[d]) < units then Some(SoldOut)
    else FirstLack(byDate, d + 1, checkOut, units)
  }

  function CheckError(stay: Stay, allotments: seq<Allotment>, units: int): Option<Error> {
    if units < 1 then Some(InvalidUnits)
    else FirstLack(ByDate(allotments), stay.checkIn, stay.checkOut, units)
  }

  method Check(stay: Stay, allotments: seq<Allotment>, units: int) returns (e: Option<Error>)
    ensures e == CheckError(stay, allotments, units)
  {
    if units < 1 {
      return Some(InvalidUnits);
    }
    var byDate: map<Day, Allotment> := map[];
    for i := 0 to |allotments|
      invariant byDate == ByDate(allotments[..i])
    {
      assert allotments[..i + 1][..i] == allotments[..i];
      byDate := byDate[allotments[i].date := allotments[i]];
    }
    assert allotments[..|allotments|] == allotments;
    for d := stay.checkIn to stay.checkOut
      invariant FirstLack(byDate, d, stay.checkOut, units) == FirstLack(byDate, stay.checkIn, stay.checkOut, units)
    {
      if d !in byDate {
        return Some(NoInventory);
      }
      if Available(byDate[d]) < units {
        return Some(SoldOut);
      }
    }
    return None;
  }

  lemma {:induction false} FirstLackIff(byDate: map<Day, Allotment>, d: Day, checkOut: Day, units: int)
    requires d <= checkOut
    ensures FirstLack(byDate, d, checkOut, units) == None <==>
            forall e | d <= e < checkOut :: e in byDate && units <= Available(byDate[e])
    decreases checkOut - d
  {
    if d == checkOut {
    } else if d in byDate && units <= Available(byDate[d]) {
      FirstLackIff(byDate, d + 1, checkOut, units);
    }
  }

  /** The first night that lacks units gives the complaint: a missing row, or too few. */
  lemma {:induction false} LackIs(byDate: map<Day, Allotment>, d: Day, checkOut: Day, units: int, night: Day)
    requires d <= night < checkOut && !(night in byDate && units <= Available(byDate[night]))
    requires forall e | d <= e < night :: e in byDate && units <= Available(byDate[e])
    ensures FirstLack(byDate, d, checkOut, units) == Some(if night in byDate then SoldOut else NoInventory)
    decreases night - d
  {
    if d == night {
    } else {
      LackIs(byDate, d + 1, checkOut, units, night);
    }
  }
}
