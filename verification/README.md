# Bakery pricing engine, modelled in Dafny

The model covers the pricing core of the bakery service (`src/lib.rs`).
A **cart** is an ordered list of **parcels**. A parcel is a `count` of one
**item**. An item has a unit `price` and may have a **bulk tier**
(`BulkPrice`): every full group of `amount` units costs `total_price`.

- `Parcel::price` splits the count into `count / amount` full groups, each charged at the group price. The leftover units are charged at the unit price. With no tier, every unit is charged at the unit price.
- `Cart::price` sums the parcel prices.

Modelling choices:

- Money is integer cents (`Cents = int`), not `f64`. Every amount in the source's tests is exact in cents: 1.25 is 125 and 6.0 is 600.
- `count` and `amount` are the `u32` newtype. The verifier therefore checks the source's unsigned arithmetic: `number_of_groups * amount` does not overflow, and `count -= …` does not underflow.
- In Rust, dividing by a zero tier size panics. The model makes this an explicit outcome, `Panicked(DivideByZero)`, not a precondition. A cart panics when any of its parcels does.
- Each `price` operation has two parts: a specification function (`Cost`) and a method (`Price`) that follows the source's steps and is proved equal to it. `Parcel.Price` updates its locals `left` and `total` as the source does. `Cart.Price` adds the parcel prices in a loop.
- Both `price` operations take `&self` and change nothing. In the model carts, parcels and items are immutable datatype values, so this holds by construction.

Files:

- `bakery.dfy`, module `Bakery`: the data model, the operations and their properties.
- `scenarios.dfy`, module `BakeryScenarios`: the four carts from the source's unit tests.

## Model

| member | source | states |
|---|---|---|
| `Bakery.Parcel.Price` | src/lib.rs:36-46 | The step-by-step computation equals `Cost()`. With no tier, that is count times unit price. With a tier, it is full groups at the group price plus leftover units at the unit price. No u32 step overflows or underflows. The result is a panic exactly when the tier size is 0. |
| `Bakery.Cart.Price` | src/lib.rs:29-31 | The loop that adds up parcel prices equals `Cost()`, the sum of the parcels' costs. It panics when one of the parcels panics. |
| `Bakery.Leftover` | src/lib.rs:40-41 | For a tier size of at least 1: the full groups hold at most `count` units. Removing them leaves exactly `count % amount` units. That leftover is below `amount`. So the subtraction never underflows and the product never exceeds `count`. |
| `Bakery.NoTierCost` | src/lib.rs:39-44 | With no bulk tier, a parcel costs `count * price`. |
| `Bakery.TierCost` | src/lib.rs:39-44 | With a tier of size at least 1, a parcel costs `(count / amount) * total_price + (count % amount) * price`, and the remainder is below `amount`. |
| `Bakery.TieredIsGroupByGroup` | src/lib.rs:39-44 | The quotient/remainder price equals an independent reference: take one full group at a time at the group price, then charge the rest at the unit price. |
| `Bakery.BelowTierIsUnitPrice` | src/lib.rs:40-44 | When the count is below the tier size, the tier has no effect and the parcel costs `count * price`. |
| `Bakery.WholeGroupsCost` | src/lib.rs:40-44 | A count of exactly `k` full groups costs `k * total_price`, with nothing at the unit price. |
| `Bakery.TierIsDiscount` | src/lib.rs:39-44 | If a group costs at most `amount` unit prices, the tiered price is at most `count * price`. It is strictly less once a full group is bought at a strictly cheaper group price. |
| `Bakery.EmptyCartIsFree` | src/lib.rs:29-31 | The empty cart costs 0. |
| `Bakery.SumCostsAppend` | src/lib.rs:29-31 | The cost of two parcel lists concatenated is the sum of their costs. If either list panics, so does the concatenation. |
| `Bakery.SumCostsPanics` | src/lib.rs:29-31 | Pricing a list of parcels panics if and only if some parcel's tier size is 0. |
| `Bakery.SumCostsRemove` | src/lib.rs:29-31 | The cost of a list is the cost of any one of its parcels plus the cost of the list without it. |
| `Bakery.SumCostsReorder` | src/lib.rs:29-31 | Two parcel lists with the same multiset of parcels have the same cost, so the order of a cart's parcels does not matter. |
| `BakeryScenarios.SevenCookies` | src/lib.rs:53-70 | 7 cookies at 1.25 with a tier of 6 for 6.00 cost 7.25 (725 cents). |
| `BakeryScenarios.EightCookies` | src/lib.rs:167-184 | 8 such cookies cost 8.50 (850 cents). |
| `BakeryScenarios.MultiItemOne` | src/lib.rs:72-113 | The cart of 1 cookie, 4 brownies (tier 4 for 7.00, 2.00 each) and 1 cheesecake (8.00) costs 16.25. |
| `BakeryScenarios.MultiItemTwo` | src/lib.rs:115-165 | The cart of 1 cookie, 1 brownie, 1 cheesecake and 2 donuts (0.50 each) costs 12.25. |
| `BakeryScenarios.PriceTestCarts` | src/lib.rs:53-184 | The step-by-step `Cart.Price` method returns 725, 850, 1625 and 1225 cents on the four test carts. |

## Left out

- `src/bin/server.rs` is not part of this model. It holds HTTP routing, the async runtime and a TCP listener, and its two handlers are empty.
- The model does not reproduce `f64` arithmetic: rounding, and `-0.0` as the starting value of a sum. Prices are exact integer cents. All of the source's test values are exact in cents.
- The model does not bound the money amounts (`price`, `total_price` and the totals). They are unbounded integers, so `f64` overflow to infinity is not modelled.
- `Item`'s `_id` and `_name` fields are carried as `id` and `name`. Pricing never reads them.
- Promotional sales, day-of-week or fixed-date schedules, and unknown-item errors are not modelled: `src/lib.rs` has none of them. A zero tier size aborts the program. It is not reported as a configuration error. The model follows the code here.
