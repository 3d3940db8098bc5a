/** The bakery pricing engine: a cart is a list of parcels, a parcel is a
    count of one item, and an item may carry a bulk tier ("6 for 6.00").

    Money is kept in integer minor units (cents), so every price below is
    exact. Counts and tier sizes are unsigned 32-bit integers, as in the
    source; the verifier checks that the pricing arithmetic on them never
    leaves that range. A division by a zero tier size, which aborts the
    source program, is the outcome `Panicked(DivideByZero)`. */
module Bakery {

  newtype u32 = x: int | 0 <= x < 0x1_0000_0000
  newtype u64 = x: int | 0 <= x < 0x1_0000_0000_0000_0000

  /** An amount of money in cents. */
  type Cents = int

  datatype Option<T> = None | Some(value: T)

  /** A bulk tier: every full group of `amount` units costs `totalPrice`. */
  datatype BulkPrice = BulkPrice(amount: u32, totalPrice: Cents)

  /** A good with a unit price. Pricing never reads `id` or `name`. */
  datatype Item = Item(id: u64, name: string, price: Cents, bulkPricing: Option<BulkPrice>)

  /** Why pricing aborted. */
  datatype Panic = DivideByZero

  /** The result of pricing: a total, or the abort the source would hit. */
  datatype Outcome = Priced(total: Cents) | Panicked(reason: Panic)
  {
    /** Adding two outcomes: an abort on either side aborts the sum. */
    function Plus(that: Outcome): Outcome {
      if Panicked? then this
      else if that.Panicked? then that
      else Priced(total + that.total)
    }
  }

  /** The price of `count` units under a tier of `amount` units for
      `groupPrice`, the leftover units at `unitPrice` each: the quotient
      counts the full groups and the remainder the units outside them. */
  function TieredPrice(count: nat, amount: nat, groupPrice: Cents, unitPrice: Cents): Cents
    requires amount >= 1
  {
    (count / amount) * groupPrice + (count % amount) * unitPrice
  }

  /** A number of units of one item, such as "8 cookies". */
  datatype Parcel = Parcel(item: Item, count: u32)
  {
    /** Whether pricing this parcel divides by a zero tier size. */
    predicate DividesByZero() {
      item.bulkPricing.Some? && item.bulkPricing.value.amount == 0
    }

    /** What this parcel costs: every unit at the unit price when the item
        has no tier, otherwise the tiered price. */
    function Cost(): Outcome {
      match item.bulkPricing
      case None => Priced(count as int * item.price)
      case Some(tier) =>
        if tier.amount == 0 then Panicked(DivideByZero)
        else Priced(TieredPrice(count as nat, tier.amount as nat, tier.totalPrice, item.price))
    }

    /** Parcel::price: takes the full groups off a running count and
        charges them at the group price, then charges what is left of the
        count at the unit price. Every step stays within u32. */
    method Price() returns (r: Outcome)
      ensures r == Cost()
      ensures r.Panicked? <==> DividesByZero()
    {
      var left: u32 := count;
      var total: Cents := 0;
      if item.bulkPricing.Some? {
        var tier := item.bulkPricing.value;
        if tier.amount == 0 {
          return Panicked(DivideByZero);
        }
        var groups: u32 := count / tier.amount;
        Leftover(count as nat, tier.amount as nat);
        left := left - groups * tier.amount;
        total := total + groups as int * tier.totalPrice;
      }
      total := total + left as int * item.price;
      r := Priced(total);
    }
  }

  /** A collection of parcels priced together. */
  datatype Cart = Cart(parcels: seq<Parcel>)
  {
    /** What the cart costs: the sum of its parcels' costs. */
    function Cost(): Outcome {
      SumCosts(parcels)
    }

    /** Cart::price: adds up the parcels' prices in order. */
    method Price() returns (r: Outcome)
      ensures r == Cost()
    {
      var total: Cents := 0;
      var i := 0;
      while i < |parcels|
        invariant 0 <= i <= |parcels|
        invariant Priced(total).Plus(SumCosts(parcels[i..])) == Cost()
      {
        assert parcels[i..] == [parcels[i]] + parcels[i + 1..];
        var p := parcels[i].Price();
        if p.Panicked? {
          return p;
        }
        total := total + p.total;
        i := i + 1;
      }
      r := Priced(total);
    }
  }

  /** The sum of the costs of a list of parcels; 0 for no parcels. */
  function SumCosts(ps: seq<Parcel>): Outcome {
    if ps == [] then Priced(0) else ps[0].Cost().Plus(SumCosts(ps[1..]))
  }

  // ----- Properties of a single parcel -----

  /** Taking the full groups off `count` leaves `count % amount`, which is
      below `amount`: the product does not exceed `count`, so neither the
      multiplication nor the subtraction leaves u32. */
  lemma Leftover(count: nat, amount: nat)
    requires amount >= 1
    ensures (count / amount) * amount <= count
    ensures count - (count / amount) * amount == count % amount
    ensures 0 <= count % amount < amount
  {
  }

  /** A reference definition of the tiered price, one full group at a time. */
  function GroupByGroup(count: nat, amount: nat, groupPrice: Cents, unitPrice: Cents): Cents
    requires amount >= 1
    decreases count
  {
    if count < amount then count * unitPrice
    else groupPrice + GroupByGroup(count - amount, amount, groupPrice, unitPrice)
  }

  /** Quotient and remainder agree with taking off one group at a time. */
  lemma {:induction false} TieredIsGroupByGroup(count: nat, amount: nat, groupPrice: Cents, unitPrice: Cents)
    requires amount >= 1
    ensures TieredPrice(count, amount, groupPrice, unitPrice) == GroupByGroup(count, amount, groupPrice, unitPrice)
  {
    if count >= amount {
      TieredIsGroupByGroup(count - amount, amount, groupPrice, unitPrice);
      DivModStep(count, amount);
    }
  }

  lemma DivModStep(count: nat, amount: nat)
    requires 1 <= amount <= count
    ensures count / amount == (count - amount) / amount + 1
    ensures count % amount == (count - amount) % amount
  {
    var q, r := (count - amount) / amount, (count - amount) % amount;
    assert count == (q + 1) * amount + r;
    DivModUnique(count, amount, q + 1, r);
  }

  /** Quotient and remainder are the only such pair. */
  lemma DivModUnique(n: int, a: int, q: int, r: int)
    requires a >= 1 && 0 <= r < a && n == q * a + r
    ensures n / a == q && n % a == r
  {
    var q', r' := n / a, n % a;
    assert q' * a + r' == q * a + r;
    if q > q' {
      assert (q - q') * a == q * a - q' * a;
      MulAtLeast(q - q', a);
    } else if q < q' {
      assert (q' - q) * a == q' * a - q * a;
      MulAtLeast(q' - q, a);
    }
  }

  lemma {:induction false} MulAtLeast(k: int, a: int)
    requires k >= 1 && a >= 0
    ensures k * a >= a
  {
    if k > 1 {
      MulAtLeast(k - 1, a);
      assert k * a == (k - 1) * a + a;
    }
  }

  /** With no tier, every unit costs the unit price. */
  lemma NoTierCost(p: Parcel)
    requires p.item.bulkPricing == None
    ensures p.Cost() == Priced(p.count as int * p.item.price)
  {
  }

  /** With a tier of at least one unit, the full groups cost the group
      price and the leftover units, fewer than a group, the unit price. */
  lemma TierCost(p: Parcel, tier: BulkPrice)
    requires p.item.bulkPricing == Some(tier) && tier.amount >= 1
    ensures p.Cost() == Priced((p.count as int / tier.amount as int) * tier.totalPrice
                               + (p.count as int % tier.amount as int) * p.item.price)
    ensures p.count as int % tier.amount as int < tier.amount as int
  {
  }

  /** Fewer units than a full group: the tier has no effect. */
  lemma {:induction false} BelowTierIsUnitPrice(p: Parcel, tier: BulkPrice)
    requires p.item.bulkPricing == Some(tier) && 1 <= tier.amount
    requires p.count < tier.amount
    ensures p.Cost() == Priced(p.count as int * p.item.price)
  {
    TieredIsGroupByGroup(p.count as nat, tier.amount as nat, tier.totalPrice, p.item.price);
  }

  /** A whole number of groups costs exactly that many group prices. */
  lemma {:induction false} WholeGroupsCost(p: Parcel, tier: BulkPrice, groups: nat)
    requires p.item.bulkPricing == Some(tier) && 1 <= tier.amount
    requires p.count as int == groups * tier.amount as int
    ensures p.Cost() == Priced(groups * tier.totalPrice)
  {
    WholeGroups(groups, tier.amount as nat, tier.totalPrice, p.item.price);
  }

  lemma {:induction false} WholeGroups(groups: nat, amount: nat, groupPrice: Cents, unitPrice: Cents)
    requires amount >= 1
    ensures GroupByGroup(groups * amount, amount, groupPrice, unitPrice) == groups * groupPrice
    ensures TieredPrice(groups * amount, amount, groupPrice, unitPrice) == groups * groupPrice
  {
    if groups > 0 {
      WholeGroups(groups - 1, amount, groupPrice, unitPrice);
      assert groups * amount - amount == (groups - 1) * amount;
    }
    TieredIsGroupByGroup(groups * amount, amount, groupPrice, unitPrice);
  }

  /** A tier whose group price is at most `amount` unit prices never costs
      more than paying every unit at the unit price, and costs strictly
      less once a full group is bought at a strictly cheaper group price. */
  lemma {:induction false} TierIsDiscount(count: nat, amount: nat, groupPrice: Cents, unitPrice: Cents)
    requires amount >= 1 && groupPrice <= amount * unitPrice
    ensures TieredPrice(count, amount, groupPrice, unitPrice) <= count * unitPrice
    ensures count >= amount && groupPrice < amount * unitPrice ==>
              TieredPrice(count, amount, groupPrice, unitPrice) < count * unitPrice
  {
    TieredIsGroupByGroup(count, amount, groupPrice, unitPrice);
    if count >= amount {
      TierIsDiscount(count - amount, amount, groupPrice, unitPrice);
      TieredIsGroupByGroup(count - amount, amount, groupPrice, unitPrice);
      assert count * unitPrice == amount * unitPrice + (count - amount) * unitPrice;
    }
  }

  // ----- Properties of a cart -----

  /** The empty cart costs nothing. */
  lemma EmptyCartIsFree()
    ensures Cart([]).Cost() == Priced(0)
  {
  }

  /** Pricing two lists of parcels one after the other adds their costs. */
  lemma {:induction false} SumCostsAppend(a: seq<Parcel>, b: seq<Parcel>)
    ensures SumCosts(a + b) == SumCosts(a).Plus(SumCosts(b))
  {
    if a != [] {
      assert (a + b)[0] == a[0];
      assert (a + b)[1..] == a[1..] + b;
      SumCostsAppend(a[1..], b);
      PlusAssociative(a[0].Cost(), SumCosts(a[1..]), SumCosts(b));
    } else {
      assert a + b == b;
    }
  }

  lemma PlusAssociative(x: Outcome, y: Outcome, z: Outcome)
    ensures x.Plus(y.Plus(z)) == x.Plus(y).Plus(z)
  {
  }

  /** A cart aborts exactly when one of its parcels divides by zero. */
  lemma {:induction false} SumCostsPanics(ps: seq<Parcel>)
    ensures SumCosts(ps).Panicked? <==> exists i :: 0 <= i < |ps| && ps[i].DividesByZero()
  {
    if ps != [] {
      SumCostsPanics(ps[1..]);
      if ps[0].DividesByZero() {
      } else if exists i :: 0 <= i < |ps| && ps[i].DividesByZero() {
        var i :| 0 <= i < |ps| && ps[i].DividesByZero();
        assert ps[1..][i - 1] == ps[i];
      }
    }
  }

  /** Taking one parcel out of a list takes its cost out of the sum. */
  lemma {:induction false} SumCostsRemove(qs: seq<Parcel>, j: nat)
    requires j < |qs|
    ensures SumCosts(qs) == qs[j].Cost().Plus(SumCosts(qs[..j] + qs[j + 1..]))
  {
    var x := qs[j];
    assert qs == qs[..j] + ([x] + qs[j + 1..]);
    SumCostsAppend(qs[..j], [x] + qs[j + 1..]);
    assert ([x] + qs[j + 1..])[1..] == qs[j + 1..];
    assert SumCosts([x] + qs[j + 1..]) == x.Cost().Plus(SumCosts(qs[j + 1..]));
    SumCostsAppend(qs[..j], qs[j + 1..]);
    PlusAssociative(SumCosts(qs[..j]), x.Cost(), SumCosts(qs[j + 1..]));
    PlusAssociative(x.Cost(), SumCosts(qs[..j]), SumCosts(qs[j + 1..]));
    PlusCommutative(SumCosts(qs[..j]), x.Cost());
  }

  lemma PlusCommutative(x: Outcome, y: Outcome)
    ensures x.Plus(y) == y.Plus(x)
  {
  }

  lemma MultisetRemove(qs: seq<Parcel>, j: nat)
    requires j < |qs|
    ensures multiset(qs[..j] + qs[j + 1..]) == multiset(qs) - multiset{qs[j]}
  {
    assert qs == qs[..j] + [qs[j]] + qs[j + 1..];
  }

  /** The order of the parcels does not change the cart's cost. */
  lemma {:induction false} SumCostsReorder(ps: seq<Parcel>, qs: seq<Parcel>)
    requires multiset(ps) == multiset(qs)
    ensures SumCosts(ps) == SumCosts(qs)
  {
    if ps == [] {
      assert |qs| == |multiset(qs)| == 0;
    } else {
      var x := ps[0];
      assert x in multiset(qs);
      var j :| 0 <= j < |qs| && qs[j] == x;
      MultisetRemove(qs, j);
      MultisetRemove(ps, 0);
      assert ps[..0] + ps[1..] == ps[1..];
      SumCostsReorder(ps[1..], qs[..j] + qs[j + 1..]);
      SumCostsRemove(qs, j);
    }
  }
}
