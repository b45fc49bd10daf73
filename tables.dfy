/**
  The value types shared by the planning core: the recipe table, the stock
  table, the selection of dishes and the derived per-material quantities.
  Quantities are exact reals; serving counts are unbounded integers.
 */
module Tables {

  type Dish = string
  type Material = string

  /** Dish -> material -> quantity needed for one serving (`dishes`). */
  type Recipes = map<Dish, map<Material, real>>

  /** Material -> quantity on hand (`currentStock`). */
  type Stock = map<Material, real>

  /** Dish -> number of servings requested (`selectedDishes`). */
  type Selection = map<Dish, int>

  /** Material -> quantity (the `requirements` and `shortageCalc` tables). */
  type Quantities = map<Material, real>

  /** `t[k] || 0`: the entry of `k`, or 0 when `t` has no entry for `k`. */
  function ValueOrZero(t: map<Material, real>, k: Material): real
  {
    if k in t then t[k] else 0.0
  }

  /** Every per-serving quantity in the recipe table is non-negative. */
  ghost predicate NonNegativeRecipes(recipes: Recipes)
  {
    forall d, m :: d in recipes && m in recipes[d] ==> recipes[d][m] >= 0.0
  }
}
