/**
  One planning session: the fixed recipe and stock tables, the selection the
  user edits, and the requirement and shortage tables the effect publishes.
  Each event handler updates the selection and then runs the recomputation
  explicitly, in place of React's re-run of the effect.
 */
module Planning {

  import opened Tables
  import opened DishSelection
  import opened ServingsInput
  import opened Requirements
  import opened Shortages

  class PlanningSession {
    const recipes: Recipes
    const stock: Stock
    var selection: Selection
    var requirements: Quantities
    var shortage: Quantities

    /**
      The selection names only known dishes with at least one serving each, and
      the published tables are those of the current selection.
     */
    ghost predicate Valid()
      reads this
    {
      && KnownDishes(selection, recipes)
      && CountsPositive(selection)
      && requirements == Requirement(selection, recipes)
      && IsShortageOf(shortage, requirements, stock)
    }

    /** A session starts with nothing selected and empty tables. */
    constructor (recipes: Recipes, stock: Stock)
      ensures Valid()
      ensures this.recipes == recipes && this.stock == stock
      ensures selection == map[] && requirements == map[] && shortage == map[]
    {
      this.recipes := recipes;
      this.stock := stock;
      selection := map[];
      requirements := map[];
      shortage := map[];
    }

    /**
      The effect body (lines 103-126): rebuilds both tables from the selection
      and publishes them together.
     */
    method Recompute()
      requires KnownDishes(selection, recipes)
      modifies this
      ensures selection == old(selection)
      ensures requirements == Requirement(selection, recipes)
      ensures IsShortageOf(shortage, requirements, stock)
    {
      var req := ComputeRequirements(selection, recipes);
      var sc := ComputeShortage(req, stock);
      requirements, shortage := req, sc;
    }

    /**
      `addDishFromDropdown`: the dropdown offers only recipe dishes, or the
      empty string when nothing is chosen.
     */
    method AddDishFromDropdown(choice: Dish)
      requires Valid()
      requires choice == "" || choice in recipes
      modifies this
      ensures Valid()
      ensures selection == AddDish(old(selection), choice)
    {
      selection := AddDish(selection, choice);
      Recompute();
    }

    /** `updateDishQuantity`, called for dishes of the recipe table. */
    method UpdateDishQuantity(dish: Dish, quantity: int)
      requires Valid()
      requires dish in recipes
      modifies this
      ensures Valid()
      ensures selection == UpdateQuantity(old(selection), dish, quantity)
    {
      selection := UpdateQuantity(selection, dish, quantity);
      Recompute();
    }

    /** The Remove button of a selected dish, and the removal inside `updateDishQuantity`. */
    method Remove(dish: Dish)
      requires Valid()
      modifies this
      ensures Valid()
      ensures selection == RemoveDish(old(selection), dish)
    {
      selection := RemoveDish(selection, dish);
      Recompute();
    }

    /** The minus button (line 213): one serving fewer; the last serving removes the dish. */
    method Decrement(dish: Dish)
      requires Valid()
      requires dish in selection
      modifies this
      ensures Valid()
      ensures old(selection)[dish] == 1 ==> selection == RemoveDish(old(selection), dish)
      ensures old(selection)[dish] > 1 ==> selection == old(selection)[dish := old(selection)[dish] - 1]
    {
      UpdateDishQuantity(dish, selection[dish] - 1);
    }

    /** The plus button (line 230): one serving more. */
    method Increment(dish: Dish)
      requires Valid()
      requires dish in selection
      modifies this
      ensures Valid()
      ensures selection == old(selection)[dish := old(selection)[dish] + 1]
    {
      UpdateDishQuantity(dish, selection[dish] + 1);
    }

    /** The servings text box (lines 222-224): unreadable text counts as 0 and removes the dish. */
    method EnterServings(dish: Dish, text: string)
      requires Valid()
      requires dish in selection
      modifies this
      ensures Valid()
      ensures selection == UpdateQuantity(old(selection), dish, ParseServings(text))
    {
      UpdateDishQuantity(dish, ParseServings(text));
    }
  }

  /**
    Every material on the shopping list is needed by some selected dish, and
    its quantity is the selection's total need minus what is in stock.
   */
  lemma ShortageTraceable(sel: Selection, recipes: Recipes, stock: Stock, sc: Quantities, m: Material)
    requires KnownDishes(sel, recipes)
    requires IsShortageOf(sc, Requirement(sel, recipes), stock)
    requires m in sc
    ensures exists d :: d in sel && sel[d] > 0 && m in recipes[d]
    ensures sc[m] == DishSum(sel.Keys, sel, recipes, m) - ValueOrZero(stock, m) > 0.0
  {
    RequirementEquation(sel, recipes, m);
  }
}
