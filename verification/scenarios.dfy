/** The carts of the pricing engine's unit tests, priced in cents. */
module BakeryScenarios {
  import opened Bakery

  /** Cookies at 1.25 each, or 6 for 6.00. */
  const Cookies := Item(1, "cookies", 125, Some(BulkPrice(6, 600)))
  /** Brownies at 2.00 each, or 4 for 7.00. */
  const Brownies := Item(2, "Brownies", 200, Some(BulkPrice(4, 700)))
  /** Cheesecake at 8.00, no tier. */
  const Cheesecake := Item(3, "Cheesecake", 800, None)
  /** Donuts at 0.50, no tier. */
  const Donuts := Item(4, "Donuts", 50, None)

  /** Seven cookies: one group of six and one cookie at the unit price. */
  lemma SevenCookies()
    ensures Cart([Parcel(Cookies, 7)]).Cost() == Priced(725)
  {
    assert Parcel(Cookies, 7).Cost() == Priced(600 + 125);
    var ps := [Parcel(Cookies, 7)];
    assert ps[1..] == [];
    assert SumCosts(ps[1..]) == Priced(0);
  }

  /** Eight cookies: one group of six and two cookies at the unit price. */
  lemma EightCookies()
    ensures Cart([Parcel(Cookies, 8)]).Cost() == Priced(850)
  {
    assert Parcel(Cookies, 8).Cost() == Priced(600 + 2 * 125);
    var ps := [Parcel(Cookies, 8)];
    assert ps[1..] == [];
    assert SumCosts(ps[1..]) == Priced(0);
  }

  /** One cookie, four brownies (a full group) and one cheesecake. */
  lemma MultiItemOne()
    ensures Cart([Parcel(Cookies, 1), Parcel(Brownies, 4), Parcel(Cheesecake, 1)]).Cost() == Priced(1625)
  {
    var ps := [Parcel(Cookies, 1), Parcel(Brownies, 4), Parcel(Cheesecake, 1)];
    assert ps[0].Cost() == Priced(125);
    assert ps[1].Cost() == Priced(700);
    assert ps[2].Cost() == Priced(800);
    assert ps[2..][1..] == [];
    assert SumCosts(ps[2..]) == Priced(800);
    assert ps[1..][1..] == ps[2..];
    assert SumCosts(ps[1..]) == Priced(1500);
  }

  /** One each of cookies, brownies and cheesecake, and two donuts. */
  lemma MultiItemTwo()
    ensures Cart([Parcel(Cookies, 1), Parcel(Brownies, 1), Parcel(Cheesecake, 1), Parcel(Donuts, 2)]).Cost()
            == Priced(1225)
  {
    var ps := [Parcel(Cookies, 1), Parcel(Brownies, 1), Parcel(Cheesecake, 1), Parcel(Donuts, 2)];
    assert ps[0].Cost() == Priced(125);
    assert ps[1].Cost() == Priced(200);
    assert ps[2].Cost() == Priced(800);
    assert ps[3].Cost() == Priced(100);
    assert ps[3..][1..] == [];
    assert SumCosts(ps[3..]) == Priced(100);
    assert ps[2..][1..] == ps[3..];
    assert SumCosts(ps[2..]) == Priced(900);
    assert ps[1..][1..] == ps[2..];
    assert SumCosts(ps[1..]) == Priced(1100);
  }

  /** The same carts priced by the step-by-step methods. */
  method PriceTestCarts() returns (seven: Outcome, eight: Outcome, one: Outcome, two: Outcome)
    ensures seven == Priced(725) && eight == Priced(850)
    ensures one == Priced(1625) && two == Priced(1225)
  {
    SevenCookies();
    EightCookies();
    MultiItemOne();
    MultiItemTwo();
    seven := Cart([Parcel(Cookies, 7)]).Price();
    eight := Cart([Parcel(Cookies, 8)]).Price();
    one := Cart([Parcel(Cookies, 1), Parcel(Brownies, 4), Parcel(Cheesecake, 1)]).Price();
    two := Cart([Parcel(Cookies, 1), Parcel(Brownies, 1), Parcel(Cheesecake, 1), Parcel(Donuts, 2)]).Price();
  }
}
