/**
  The requirement table: for each material, the sum over the selected dishes
  with a positive count of (per-serving quantity x servings). The ghost
  functions state that sum; the two methods are the nested `forEach` loops
  that build the table in an accumulator.
 */
module Requirements {

  import opened Tables
  import opened DishSelection

  /**
    What dish `d` adds to material `m`: per-serving quantity times servings,
    when `d` is selected with a positive count and its recipe names `m`.
   */
  ghost function Contribution(sel: Selection, recipes: Recipes, d: Dish, m: Material): real
  {
    if d in sel && sel[d] > 0 && d in recipes && m in recipes[d]
    then recipes[d][m] * (sel[d] as real)
    else 0.0
  }

  /**
    The contributions to `m` of the dishes in `ds`, summed in an arbitrary
    order (DishSumRemove shows every order gives the same sum).
   */
  ghost function DishSum(ds: set<Dish>, sel: Selection, recipes: Recipes, m: Material): (r: real)
    ensures NonNegativeRecipes(recipes) ==> r >= 0.0
    decreases ds
  {
    if ds == {} then 0.0
    else
      var d :| d in ds;
      Contribution(sel, recipes, d, m) + DishSum(ds - {d}, sel, recipes, m)
  }

  /** The materials named by the recipe of some dish of `ds` selected with a positive count. */
  ghost function RequiredBy(ds: set<Dish>, sel: Selection, recipes: Recipes): set<Material>
  {
    set d, m | d in ds && d in sel && sel[d] > 0 && d in recipes && m in recipes[d] :: m
  }

  /** The requirement table built from the dishes of `ds` only. */
  ghost function RequirementOver(ds: set<Dish>, sel: Selection, recipes: Recipes): Quantities
  {
    map m | m in RequiredBy(ds, sel, recipes) :: DishSum(ds, sel, recipes, m)
  }

  /** The requirement table of the whole selection. */
  ghost function Requirement(sel: Selection, recipes: Recipes): Quantities
  {
    RequirementOver(sel.Keys, sel, recipes)
  }

  /** Any dish of `ds` can be taken out of the sum first. */
  lemma {:induction false} DishSumRemove(ds: set<Dish>, sel: Selection, recipes: Recipes, m: Material, x: Dish)
    requires x in ds
    ensures DishSum(ds, sel, recipes, m)
         == Contribution(sel, recipes, x, m) + DishSum(ds - {x}, sel, recipes, m)
    decreases ds
  {
    var d :| d in ds && DishSum(ds, sel, recipes, m)
                     == Contribution(sel, recipes, d, m) + DishSum(ds - {d}, sel, recipes, m);
    if d != x {
      DishSumRemove(ds - {d}, sel, recipes, m, x);
      DishSumRemove(ds - {x}, sel, recipes, m, d);
      assert ds - {d} - {x} == ds - {x} - {d};
    }
  }

  /** Two selections whose dishes of `ds` contribute alike give the same sum over `ds`. */
  lemma {:induction false} DishSumFrame(ds: set<Dish>, sel: Selection, sel': Selection, recipes: Recipes, m: Material)
    requires forall d :: d in ds ==> Contribution(sel, recipes, d, m) == Contribution(sel', recipes, d, m)
    ensures DishSum(ds, sel, recipes, m) == DishSum(ds, sel', recipes, m)
    decreases ds
  {
    if ds != {} {
      var d :| d in ds && DishSum(ds, sel, recipes, m)
                       == Contribution(sel, recipes, d, m) + DishSum(ds - {d}, sel, recipes, m);
      DishSumRemove(ds, sel', recipes, m, d);
      DishSumFrame(ds - {d}, sel, sel', recipes, m);
    }
  }

  /**
    The requirement equation: `m` is required exactly when some selected dish
    with a positive count names it, and then the requirement is the sum of
    the contributions of all selected dishes.
   */
  lemma RequirementEquation(sel: Selection, recipes: Recipes, m: Material)
    requires KnownDishes(sel, recipes)
    ensures m in Requirement(sel, recipes)
        <==> exists d :: d in sel && sel[d] > 0 && m in recipes[d]
    ensures m in Requirement(sel, recipes)
        ==> Requirement(sel, recipes)[m] == DishSum(sel.Keys, sel, recipes, m)
  {
    if exists d :: d in sel && sel[d] > 0 && m in recipes[d] {
      var d :| d in sel && sel[d] > 0 && m in recipes[d];
      assert m in RequiredBy(sel.Keys, sel, recipes);
    }
  }

  /** A selection of one dish needs its recipe scaled by its servings. */
  lemma RequirementOfOneDish(dish: Dish, servings: int, recipes: Recipes)
    requires dish in recipes && servings > 0
    ensures Requirement(map[dish := servings], recipes).Keys == recipes[dish].Keys
    ensures forall m :: m in recipes[dish] ==>
      Requirement(map[dish := servings], recipes)[m] == recipes[dish][m] * (servings as real)
  {
    var sel := map[dish := servings];
    forall m
      ensures m in Requirement(sel, recipes) <==> m in recipes[dish]
      ensures m in recipes[dish] ==> Requirement(sel, recipes)[m] == recipes[dish][m] * (servings as real)
    {
      RequirementEquation(sel, recipes, m);
      DishSumRemove(sel.Keys, sel, recipes, m, dish);
      assert sel.Keys - {dish} == {};
    }
  }

  /** With non-negative recipes every requirement is non-negative. */
  lemma RequirementNonNegative(sel: Selection, recipes: Recipes)
    requires NonNegativeRecipes(recipes)
    ensures forall m :: m in Requirement(sel, recipes) ==> Requirement(sel, recipes)[m] >= 0.0
  {
  }

  /** The sum over the selection splits into one selected dish and the rest of the selection. */
  lemma DishSumSplit(sel: Selection, recipes: Recipes, m: Material, dish: Dish)
    requires dish in sel
    ensures DishSum(sel.Keys, sel, recipes, m)
         == Contribution(sel, recipes, dish, m)
          + DishSum(RemoveDish(sel, dish).Keys, RemoveDish(sel, dish), recipes, m)
  {
    var rest := RemoveDish(sel, dish);
    DishSumRemove(sel.Keys, sel, recipes, m, dish);
    DishSumFrame(rest.Keys, sel, rest, recipes, m);
  }

  /**
    Removal law: without `dish`, a material stays required exactly when
    another selected dish names it, and its requirement drops by what `dish`
    contributed; materials only `dish` needed disappear.
   */
  lemma RequirementAfterRemove(sel: Selection, recipes: Recipes, dish: Dish, m: Material)
    requires KnownDishes(sel, recipes) && dish in sel
    ensures var after := Requirement(RemoveDish(sel, dish), recipes);
            m in after <==> exists d :: d in sel && d != dish && sel[d] > 0 && m in recipes[d]
    ensures var after := Requirement(RemoveDish(sel, dish), recipes);
            m in after ==> (m in Requirement(sel, recipes) &&
                            after[m] == Requirement(sel, recipes)[m] - Contribution(sel, recipes, dish, m))
  {
    var rest := RemoveDish(sel, dish);
    RequirementEquation(rest, recipes, m);
    RequirementEquation(sel, recipes, m);
    DishSumSplit(sel, recipes, m, dish);
    if m in Requirement(rest, recipes) {
      var d :| d in rest && rest[d] > 0 && m in recipes[d];
      assert d in sel && sel[d] > 0;
    }
    if exists d :: d in sel && d != dish && sel[d] > 0 && m in recipes[d] {
      var d :| d in sel && d != dish && sel[d] > 0 && m in recipes[d];
      assert d in rest;
    }
  }

  /**
    Adding a dish with one serving adds its per-serving quantities to the
    requirement table and introduces exactly the materials of its recipe.
   */
  lemma RequirementAfterAdd(sel: Selection, recipes: Recipes, choice: Dish, m: Material)
    requires KnownDishes(sel, recipes) && choice in recipes && choice != "" && choice !in sel
    ensures var after := Requirement(AddDish(sel, choice), recipes);
            m in after <==> m in Requirement(sel, recipes) || m in recipes[choice]
    ensures var after := Requirement(AddDish(sel, choice), recipes);
            m in after ==> after[m] == ValueOrZero(Requirement(sel, recipes), m) + ValueOrZero(recipes[choice], m)
  {
    var added := AddDish(sel, choice);
    assert RemoveDish(added, choice) == sel;
    RequirementEquation(added, recipes, m);
    RequirementEquation(sel, recipes, m);
    DishSumSplit(added, recipes, m, choice);
    if m in Requirement(added, recipes) && m !in Requirement(sel, recipes) {
      // No other dish names m, so the rest of the selection contributes nothing.
      DishSumZero(sel.Keys, sel, recipes, m);
    }
  }

  /** Dishes none of which names `m` with a positive count contribute nothing to it. */
  lemma {:induction false} DishSumZero(ds: set<Dish>, sel: Selection, recipes: Recipes, m: Material)
    requires forall d :: d in ds ==> Contribution(sel, recipes, d, m) == 0.0
    ensures DishSum(ds, sel, recipes, m) == 0.0
    decreases ds
  {
    if ds != {} {
      var d :| d in ds && DishSum(ds, sel, recipes, m)
                       == Contribution(sel, recipes, d, m) + DishSum(ds - {d}, sel, recipes, m);
      DishSumZero(ds - {d}, sel, recipes, m);
    }
  }

  /**
    The inner `forEach` (lines 110-112): adds `servings` times each
    per-serving quantity of `recipe` into the accumulator, entry by entry,
    starting absent entries from 0.
   */
  method AccumulateDish(acc: Quantities, recipe: map<Material, real>, servings: int) returns (r: Quantities)
    ensures r.Keys == acc.Keys + recipe.Keys
    ensures forall m :: m in r ==>
      r[m] == ValueOrZero(acc, m) + (if m in recipe then recipe[m] * (servings as real) else 0.0)
  {
    r := acc;
    var todo := recipe.Keys;
    while todo != {}
      invariant todo <= recipe.Keys
      invariant r.Keys == acc.Keys + (recipe.Keys - todo)
      invariant forall m :: m in r ==>
        r[m] == ValueOrZero(acc, m) + (if m in recipe && m !in todo then recipe[m] * (servings as real) else 0.0)
      decreases todo
    {
      var m :| m in todo;
      r := r[m := ValueOrZero(r, m) + recipe[m] * (servings as real)];
      todo := todo - {m};
    }
  }

  /** One more dish taken into the partial table: the step of the outer loop. */
  lemma RequirementOverStep(done: set<Dish>, sel: Selection, recipes: Recipes, d: Dish, acc: Quantities)
    requires KnownDishes(sel, recipes) && d in sel && d !in done
    requires acc.Keys == RequirementOver(done, sel, recipes).Keys
                       + (if sel[d] > 0 then recipes[d].Keys else {})
    requires forall m :: m in acc ==>
      acc[m] == ValueOrZero(RequirementOver(done, sel, recipes), m) + Contribution(sel, recipes, d, m)
    ensures acc == RequirementOver(done + {d}, sel, recipes)
  {
    var before := RequirementOver(done, sel, recipes);
    var after := RequirementOver(done + {d}, sel, recipes);
    forall m
      ensures m in acc <==> m in after
      ensures m in acc ==> acc[m] == after[m]
    {
      DishSumRemove(done + {d}, sel, recipes, m, d);
      assert done + {d} - {d} == done;
      if m in after {
        var e :| e in done + {d} && e in sel && sel[e] > 0 && e in recipes && m in recipes[e];
        if e != d { assert m in RequiredBy(done, sel, recipes); }
      }
      if m !in before {
        DishSumZero(done, sel, recipes, m);
      }
    }
  }

  /**
    The outer `forEach` of the effect (lines 104-114): the accumulated table
    is the requirement table of the selection.
   */
  method ComputeRequirements(sel: Selection, recipes: Recipes) returns (req: Quantities)
    requires KnownDishes(sel, recipes)
    ensures req == Requirement(sel, recipes)
  {
    req := map[];
    var todo := sel.Keys;
    ghost var done: set<Dish> := {};
    while todo != {}
      invariant todo !! done && todo + done == sel.Keys
      invariant req == RequirementOver(done, sel, recipes)
      decreases todo
    {
      var d :| d in todo;
      var servings := sel[d];
      var next := req;
      if servings > 0 {
        next := AccumulateDish(req, recipes[d], servings);
      }
      RequirementOverStep(done, sel, recipes, d, next);
      req := next;
      todo := todo - {d};
      done := done + {d};
    }
  }
}
