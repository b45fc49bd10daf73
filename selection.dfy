/**
  The selection state machine: which dishes are planned and for how many
  servings. The three updates are the functional updaters handed to
  `setSelectedDishes`; the session class applies them in place.
 */
module DishSelection {

  import opened Tables

  /** Every selected dish has at least one serving. */
  ghost predicate CountsPositive(sel: Selection)
  {
    forall d :: d in sel ==> sel[d] >= 1
  }

  /** Every selected dish is a key of the recipe table, so `dishes[dish]` is defined. */
  ghost predicate KnownDishes(sel: Selection, recipes: Recipes)
  {
    sel.Keys <= recipes.Keys
  }

  /** `sel` and `r` agree on every dish other than `dish`. */
  ghost predicate SameExcept(sel: Selection, r: Selection, dish: Dish)
  {
    forall d :: d != dish ==> (d in r <==> d in sel) && (d in r ==> r[d] == sel[d])
  }

  /**
    The update of `addDishFromDropdown`: the chosen dish (the empty string when
    nothing is chosen) enters with one serving unless it is already selected.
   */
  function AddDish(sel: Selection, choice: Dish): (r: Selection)
    ensures choice != "" && choice !in sel ==> choice in r && r[choice] == 1
    ensures choice == "" || choice in sel ==> r == sel
    ensures SameExcept(sel, r, choice)
    ensures CountsPositive(sel) ==> CountsPositive(r)
  {
    if choice != "" && choice !in sel then sel[choice := 1] else sel
  }

  /** `removeDish`: deletes the entry of `dish`; nothing happens when there is none. */
  function RemoveDish(sel: Selection, dish: Dish): (r: Selection)
    ensures dish !in r
    ensures SameExcept(sel, r, dish)
    ensures r.Keys == sel.Keys - {dish}
    ensures CountsPositive(sel) ==> CountsPositive(r)
  {
    sel - {dish}
  }

  /**
    The update of `updateDishQuantity`: a count of zero or less removes the
    dish, any other count replaces the dish's entry.
   */
  function UpdateQuantity(sel: Selection, dish: Dish, quantity: int): (r: Selection)
    ensures quantity <= 0 ==> r == RemoveDish(sel, dish)
    ensures quantity > 0 ==> dish in r && r[dish] == quantity
    ensures SameExcept(sel, r, dish)
    ensures CountsPositive(sel) ==> CountsPositive(r)
    ensures dish in sel ==> r.Keys <= sel.Keys
  {
    if quantity <= 0 then RemoveDish(sel, dish) else sel[dish := quantity]
  }

  /**
    The selection keeps naming only recipe dishes: the dropdown offers recipe
    dishes only, and the servings controls act on dishes already selected.
   */
  lemma KnownDishesPreserved(sel: Selection, recipes: Recipes, choice: Dish, dish: Dish, quantity: int)
    requires KnownDishes(sel, recipes)
    ensures choice == "" || choice in recipes ==> KnownDishes(AddDish(sel, choice), recipes)
    ensures dish in sel ==> KnownDishes(UpdateQuantity(sel, dish, quantity), recipes)
    ensures KnownDishes(RemoveDish(sel, dish), recipes)
  {
  }

  /** Setting the same count twice leaves the selection as setting it once. */
  lemma UpdateQuantityIdempotent(sel: Selection, dish: Dish, quantity: int)
    ensures UpdateQuantity(UpdateQuantity(sel, dish, quantity), dish, quantity)
         == UpdateQuantity(sel, dish, quantity)
  {
  }

  /**
    Sum of the serving counts of the dishes in `ds`, summed in an arbitrary
    order (ServingSumRemove shows every order gives the same total).
   */
  ghost function ServingSum(ds: set<Dish>, sel: Selection): (r: int)
    requires ds <= sel.Keys
    ensures (forall d :: d in ds ==> sel[d] >= 1) ==> r >= |ds|
    decreases ds
  {
    if ds == {} then 0
    else
      var d :| d in ds;
      sel[d] + ServingSum(ds - {d}, sel)
  }

  /**
    `totalDishes`: the sum of all serving counts in the selection; with every
    count at least one it is at least the number of selected dishes.
   */
  ghost function TotalServings(sel: Selection): (r: int)
    ensures sel == map[] ==> r == 0
    ensures CountsPositive(sel) ==> r >= |sel|
  {
    ServingSum(sel.Keys, sel)
  }

  /** Any dish of `ds` can be taken out of the sum first. */
  lemma {:induction false} ServingSumRemove(ds: set<Dish>, sel: Selection, x: Dish)
    requires ds <= sel.Keys && x in ds
    ensures ServingSum(ds, sel) == sel[x] + ServingSum(ds - {x}, sel)
    decreases ds
  {
    var d :| d in ds && ServingSum(ds, sel) == sel[d] + ServingSum(ds - {d}, sel);
    if d != x {
      ServingSumRemove(ds - {d}, sel, x);
      ServingSumRemove(ds - {x}, sel, d);
      assert ds - {d} - {x} == ds - {x} - {d};
    }
  }

  /** The sum over `ds` depends only on the counts of the dishes in `ds`. */
  lemma {:induction false} ServingSumFrame(ds: set<Dish>, sel: Selection, sel': Selection)
    requires ds <= sel.Keys && ds <= sel'.Keys
    requires forall d :: d in ds ==> sel[d] == sel'[d]
    ensures ServingSum(ds, sel) == ServingSum(ds, sel')
    decreases ds
  {
    if ds != {} {
      var d :| d in ds && ServingSum(ds, sel) == sel[d] + ServingSum(ds - {d}, sel);
      ServingSumRemove(ds, sel', d);
      ServingSumFrame(ds - {d}, sel, sel');
    }
  }

  /** The total is the removed dish's count plus the total of the rest. */
  lemma TotalServingsSplit(sel: Selection, dish: Dish)
    requires dish in sel
    ensures TotalServings(sel) == sel[dish] + TotalServings(RemoveDish(sel, dish))
  {
    ServingSumRemove(sel.Keys, sel, dish);
    ServingSumFrame(sel.Keys - {dish}, sel, RemoveDish(sel, dish));
  }

  /** Adding a dish raises the total by one serving exactly when the dish is added. */
  lemma TotalServingsAfterAdd(sel: Selection, choice: Dish)
    ensures TotalServings(AddDish(sel, choice))
         == TotalServings(sel) + (if choice != "" && choice !in sel then 1 else 0)
  {
    if choice != "" && choice !in sel {
      var r := AddDish(sel, choice);
      TotalServingsSplit(r, choice);
      assert RemoveDish(r, choice) == sel;
    }
  }

  /**
    After `updateDishQuantity(dish, q)` the total is the total of the other
    dishes plus `q`, or plus nothing when `q` removed the dish.
   */
  lemma TotalServingsAfterUpdate(sel: Selection, dish: Dish, quantity: int)
    ensures TotalServings(UpdateQuantity(sel, dish, quantity))
         == TotalServings(RemoveDish(sel, dish)) + (if quantity > 0 then quantity else 0)
  {
    if quantity > 0 {
      var r := sel[dish := quantity];
      ServingSumRemove(r.Keys, r, dish);
      assert r.Keys - {dish} == (sel - {dish}).Keys;
      ServingSumFrame(r.Keys - {dish}, r, sel - {dish});
    }
  }

  /**
    With every count at least one, the total is at least the number of
    selected dishes, so it is zero exactly when nothing is selected.
   */
  lemma TotalServingsBounds(sel: Selection)
    requires CountsPositive(sel)
    ensures TotalServings(sel) >= |sel|
    ensures TotalServings(sel) == 0 <==> sel == map[]
  {
    if sel != map[] {
      var d :| d in sel;
      assert |sel.Keys| >= 1 by { assert d in sel.Keys; }
    }
  }
}
