/** The `Menu` class without its PDF and file plumbing: the parsed data file,
    per-ingredient conversion, the running shopping list (`addIngredients`)
    and the per-meal list (`addMealIngredientList`). Every `TypeError` the
    source raises on a missing entry is a `Failure` here, which aborts the
    whole run. */
module Menu {
  import opened Wrappers
  import opened Records
  import opened Units

  /** An entry of `data.ingredients`: the unit its quantities are written in. */
  datatype Ingredient = Ingredient(unit: string)

  /** An entry of `data.recepies`: quantity per participant for each ingredient. */
  datatype Recipe = Recipe(ingredients: Record<real>)

  /** The parsed data file. */
  datatype Data = Data(ingredients: map<string, Ingredient>, recipes: map<string, Recipe>)

  /** What aborts a run: a meal without a recipe, an ingredient without a
      definition, or an ingredient whose unit is not in the table. */
  datatype Error =
    | UnknownMeal(meal: string)
    | UnknownIngredient(ingredient: string)
    | UnknownUnit(ingredient: string, unitName: string)

  /** The ingredient is defined and its unit is in the table. */
  predicate Resolves(data: Data, ing: string) {
    ing in data.ingredients && data.ingredients[ing].unit in Labels
  }

  /** The quantity `q` of `ing`, converted by the unit of its definition. */
  function Canonical(data: Data, ing: string, q: real): real
    requires Resolves(data, ing)
  {
    Convert(data.ingredients[ing].unit, q).value
  }

  /** `units[data.ingredients[ing].unit](q)`, failing where the source throws. */
  function Amount(data: Data, ing: string, q: real): (r: Result<real, Error>)
    ensures r.Success? <==> Resolves(data, ing)
    ensures r.Success? ==> r.value == Canonical(data, ing, q)
    ensures ing !in data.ingredients ==> r == Failure(UnknownIngredient(ing))
    ensures ing in data.ingredients && !Resolves(data, ing) ==>
              r == Failure(UnknownUnit(ing, data.ingredients[ing].unit))
  {
    if ing !in data.ingredients then Failure(UnknownIngredient(ing))
    else
      match Convert(data.ingredients[ing].unit, q)
      case None => Failure(UnknownUnit(ing, data.ingredients[ing].unit))
      case Some(a) => Success(a)
  }

  /** A meal can be processed: it has a recipe and all its ingredients resolve. */
  predicate Cookable(data: Data, meal: string) {
    && meal in data.recipes
    && forall k :: k in data.recipes[meal].ingredients.vals ==> Resolves(data, k)
  }

  /** The ingredient named by an error (the meal, for a missing recipe). */
  function Culprit(e: Error): string {
    match e
    case UnknownMeal(m) => m
    case UnknownIngredient(k) => k
    case UnknownUnit(k, _) => k
  }

  /** `x * n` for an integer factor `n`, written as repeated addition so that
      the proofs about totals stay within linear arithmetic. */
  function Scale(x: real, n: int): real
    decreases if n < 0 then -n else n
  {
    if n == 0 then 0.0
    else if n > 0 then Scale(x, n - 1) + x
    else Scale(x, n + 1) - x
  }

  /** `Scale` is multiplication. */
  lemma {:induction false} ScaleIsProduct(x: real, n: int)
    ensures Scale(x, n) == x * (n as real)
    decreases if n < 0 then -n else n
  {
    if n > 0 {
      ScaleIsProduct(x, n - 1);
    } else if n < 0 {
      ScaleIsProduct(x, n + 1);
    }
  }

  /** Scaling nothing gives nothing. */
  lemma {:induction false} ScaleZero(n: int)
    ensures Scale(0.0, n) == 0.0
    decreases if n < 0 then -n else n
  {
    if n > 0 {
      ScaleZero(n - 1);
    } else if n < 0 {
      ScaleZero(n + 1);
    }
  }

  /** What a recipe asks of ingredient `k` for all participants: converted
      quantity times participants, or nothing when the recipe does not use it. */
  function Portion(data: Data, participants: int, recipe: Recipe, k: string): real {
    if k in recipe.ingredients.vals && Resolves(data, k)
    then Scale(Canonical(data, k, recipe.ingredients.vals[k]), participants)
    else 0.0
  }

  /** What a recipe served `count` times adds to the total of ingredient `k`. */
  function Share(data: Data, participants: int, recipe: Recipe, count: int, k: string): real {
    if k in recipe.ingredients.vals && Resolves(data, k)
    then Scale(Portion(data, participants, recipe, k), count)
    else 0.0
  }

  /** The `if (list[k]) list[k] += c; else list[k] = c;` step. The truthiness
      test only chooses between adding to the stored total and assigning, and
      both give the old total (0 when absent) plus `c`. */
  function Bump(acc: Record<real>, k: string, c: real): (r: Record<real>)
    ensures Get0(r, k) == Get0(acc, k) + c
    ensures k in r.vals
    ensures forall j :: j != k ==> (j in r.vals <==> j in acc.vals) && Get0(r, j) == Get0(acc, j)
    ensures r.order == if k in acc.vals then acc.order else acc.order + [k]
  {
    if k in acc.vals && acc.vals[k] != 0.0 then Put(acc, k, acc.vals[k] + c)
    else Put(acc, k, c)
  }

  /** `e` is what the first line of `ks` whose ingredient does not resolve
      fails with, as `units[data.ingredients[k].unit]` throws for it. */
  predicate FirstLineError(data: Data, recipe: Recipe, ks: seq<string>, e: Error) {
    exists i :: && 0 <= i < |ks|
                && ks[i] in recipe.ingredients.vals
                && !Resolves(data, ks[i])
                && (forall j :: 0 <= j < i ==> Resolves(data, ks[j]))
                && Failure(e) == Amount(data, ks[i], recipe.ingredients.vals[ks[i]])
  }

  lemma FirstLineErrorHead(data: Data, recipe: Recipe, ks: seq<string>)
    requires ks != [] && ks[0] in recipe.ingredients.vals && !Resolves(data, ks[0])
    ensures FirstLineError(data, recipe, ks, Amount(data, ks[0], recipe.ingredients.vals[ks[0]]).error)
  {
    assert 0 < |ks|;
  }

  /** A line that resolves keeps the first failing line of the rest first. */
  lemma FirstLineErrorCons(data: Data, recipe: Recipe, ks: seq<string>, e: Error)
    requires ks != [] && Resolves(data, ks[0])
    requires FirstLineError(data, recipe, ks[1..], e)
    ensures FirstLineError(data, recipe, ks, e)
  {
    var i :| && 0 <= i < |ks[1..]|
             && ks[1..][i] in recipe.ingredients.vals
             && !Resolves(data, ks[1..][i])
             && (forall j :: 0 <= j < i ==> Resolves(data, ks[1..][j]))
             && Failure(e) == Amount(data, ks[1..][i], recipe.ingredients.vals[ks[1..][i]]);
    assert ks[i + 1] == ks[1..][i];
    forall j | 0 <= j < i + 1 ensures Resolves(data, ks[j]) {
      if j > 0 {
        assert ks[j] == ks[1..][j - 1];
      }
    }
  }

  /** The loop of `addIngredients` over the recipe lines `ks` still to do.
      It stops at the first line whose ingredient does not resolve. */
  function AddLines(data: Data, participants: int, recipe: Recipe, count: int,
                    ks: seq<string>, acc: Record<real>): (r: Result<Record<real>, Error>)
    requires Distinct(ks)
    requires forall k :: k in ks ==> k in recipe.ingredients.vals
    ensures r.Success? <==> forall k :: k in ks ==> Resolves(data, k)
    ensures r.Failure? ==> Culprit(r.error) in ks && !Resolves(data, Culprit(r.error))
    ensures r.Failure? ==> FirstLineError(data, recipe, ks, r.error)
    decreases |ks|
  {
    if ks == [] then Success(acc)
    else
      var k := ks[0];
      DistinctTail(ks);
      match Amount(data, k, recipe.ingredients.vals[k])
      case Failure(e) =>
        FirstLineErrorHead(data, recipe, ks);
        Failure(e)
      case Success(_) =>
        var r := AddLines(data, participants, recipe, count, ks[1..], Bump(acc, k, Share(data, participants, recipe, count, k)));
        if r.Failure? then FirstLineErrorCons(data, recipe, ks, r.error); r
        else r
  }

  /** A successful pass over the lines `ks` adds each line's share to the
      total of its ingredient and adds nothing to any other total. */
  lemma {:induction false} AddLinesTotals(data: Data, participants: int, recipe: Recipe, count: int,
                                          ks: seq<string>, acc: Record<real>)
    requires Distinct(ks)
    requires forall k :: k in ks ==> k in recipe.ingredients.vals
    requires AddLines(data, participants, recipe, count, ks, acc).Success?
    ensures forall k :: Get0(AddLines(data, participants, recipe, count, ks, acc).value, k) ==
              Get0(acc, k) + (if k in ks then Share(data, participants, recipe, count, k) else 0.0)
    decreases |ks|
  {
    if ks != [] {
      var k := ks[0];
      DistinctTail(ks);
      assert k in ks;
      var acc' := Bump(acc, k, Share(data, participants, recipe, count, k));
      AddLinesTotals(data, participants, recipe, count, ks[1..], acc');
      assert AddLines(data, participants, recipe, count, ks, acc) == AddLines(data, participants, recipe, count, ks[1..], acc');
    }
  }

  /** A successful pass over the lines `ks` lists the keys already listed and
      those of `ks`, and only appends new keys after the existing ones. */
  lemma {:induction false} AddLinesKeys(data: Data, participants: int, recipe: Recipe, count: int,
                                        ks: seq<string>, acc: Record<real>)
    requires Distinct(ks)
    requires forall k :: k in ks ==> k in recipe.ingredients.vals
    requires AddLines(data, participants, recipe, count, ks, acc).Success?
    ensures forall k :: k in AddLines(data, participants, recipe, count, ks, acc).value.vals <==> k in acc.vals || k in ks
    ensures acc.order <= AddLines(data, participants, recipe, count, ks, acc).value.order
    decreases |ks|
  {
    if ks != [] {
      var k := ks[0];
      DistinctTail(ks);
      assert k in ks;
      var acc' := Bump(acc, k, Share(data, participants, recipe, count, k));
      AddLinesKeys(data, participants, recipe, count, ks[1..], acc');
      assert AddLines(data, participants, recipe, count, ks, acc) == AddLines(data, participants, recipe, count, ks[1..], acc');
    }
  }

  /** A successful pass over the lines `ks` appends the ingredients not
      listed yet, in the order of the lines. */
  lemma {:induction false} AddLinesOrder(data: Data, participants: int, recipe: Recipe, count: int,
                                         ks: seq<string>, acc: Record<real>)
    requires Distinct(ks)
    requires forall k :: k in ks ==> k in recipe.ingredients.vals
    requires AddLines(data, participants, recipe, count, ks, acc).Success?
    ensures AddLines(data, participants, recipe, count, ks, acc).value.order == acc.order + Fresh(ks, acc.order)
    decreases |ks|
  {
    if ks != [] {
      var k := ks[0];
      DistinctTail(ks);
      assert k in ks;
      var acc' := Bump(acc, k, Share(data, participants, recipe, count, k));
      AddLinesOrder(data, participants, recipe, count, ks[1..], acc');
      assert AddLines(data, participants, recipe, count, ks, acc) == AddLines(data, participants, recipe, count, ks[1..], acc');
      AppendFresh(acc.order, ks);
    }
  }

  /** `addIngredients(meal, count)`: for every line of the meal's recipe, adds
      converted quantity times participants times count to the running total
      of that ingredient; every other total is left as it was, and new
      ingredients go after the ones already listed. Fails when the meal has
      no recipe or one of its ingredients does not resolve. */
  function AddIngredients(data: Data, participants: int, acc: Record<real>,
                          meal: string, count: int): (r: Result<Record<real>, Error>)
    ensures r.Success? <==> Cookable(data, meal)
    ensures meal !in data.recipes ==> r == Failure(UnknownMeal(meal))
    ensures meal in data.recipes && r.Failure? ==>
              && Culprit(r.error) in data.recipes[meal].ingredients.vals
              && !Resolves(data, Culprit(r.error))
    ensures meal in data.recipes && r.Failure? ==>
              FirstLineError(data, data.recipes[meal], data.recipes[meal].ingredients.order, r.error)
    ensures r.Success? ==> forall k ::
              Get0(r.value, k) == Get0(acc, k) + Share(data, participants, data.recipes[meal], count, k)
    ensures r.Success? ==> forall k :: k in r.value.vals <==> k in acc.vals || k in data.recipes[meal].ingredients.vals
    ensures r.Success? ==> acc.order <= r.value.order
    ensures r.Success? ==> r.value.order == acc.order + Fresh(data.recipes[meal].ingredients.order, acc.order)
  {
    if meal !in data.recipes then Failure(UnknownMeal(meal))
    else
      var recipe := data.recipes[meal];
      var r := AddLines(data, participants, recipe, count, recipe.ingredients.order, acc);
      if r.Success? then
        AddLinesTotals(data, participants, recipe, count, recipe.ingredients.order, acc);
        AddLinesKeys(data, participants, recipe, count, recipe.ingredients.order, acc);
        AddLinesOrder(data, participants, recipe, count, recipe.ingredients.order, acc);
        assert forall k :: k !in recipe.ingredients.order ==> Share(data, participants, recipe, count, k) == 0.0;
        r
      else r
  }

  /** The loop of `addMealIngredientList` over the recipe lines `ks` still to do. */
  function MealLines(data: Data, participants: int, recipe: Recipe,
                     ks: seq<string>, acc: Record<real>): (r: Result<Record<real>, Error>)
    requires Distinct(ks)
    requires forall k :: k in ks ==> k in recipe.ingredients.vals
    ensures r.Success? <==> forall k :: k in ks ==> Resolves(data, k)
    ensures r.Failure? ==> Culprit(r.error) in ks && !Resolves(data, Culprit(r.error))
    ensures r.Failure? ==> FirstLineError(data, recipe, ks, r.error)
    decreases |ks|
  {
    if ks == [] then Success(acc)
    else
      var k := ks[0];
      DistinctTail(ks);
      match Amount(data, k, recipe.ingredients.vals[k])
      case Failure(e) =>
        FirstLineErrorHead(data, recipe, ks);
        Failure(e)
      case Success(_) =>
        var r := MealLines(data, participants, recipe, ks[1..], Put(acc, k, Portion(data, participants, recipe, k)));
        if r.Failure? then FirstLineErrorCons(data, recipe, ks, r.error); r
        else r
  }

  /** A successful pass over the lines `ks` stores each line's portion under
      its ingredient and keeps every other entry. */
  lemma {:induction false} MealLinesValues(data: Data, participants: int, recipe: Recipe,
                                           ks: seq<string>, acc: Record<real>)
    requires Distinct(ks)
    requires forall k :: k in ks ==> k in recipe.ingredients.vals
    requires MealLines(data, participants, recipe, ks, acc).Success?
    ensures forall k :: k in MealLines(data, participants, recipe, ks, acc).value.vals <==> k in acc.vals || k in ks
    ensures forall k :: Get0(MealLines(data, participants, recipe, ks, acc).value, k) ==
              if k in ks then Portion(data, participants, recipe, k) else Get0(acc, k)
    decreases |ks|
  {
    if ks != [] {
      var k := ks[0];
      DistinctTail(ks);
      assert k in ks;
      var acc' := Put(acc, k, Portion(data, participants, recipe, k));
      MealLinesValues(data, participants, recipe, ks[1..], acc');
      assert MealLines(data, participants, recipe, ks, acc) == MealLines(data, participants, recipe, ks[1..], acc');
    }
  }

  /** Lines whose ingredients are not listed yet are appended in recipe order. */
  lemma {:induction false} MealLinesOrder(data: Data, participants: int, recipe: Recipe,
                                          ks: seq<string>, acc: Record<real>)
    requires Distinct(ks)
    requires forall k :: k in ks ==> k in recipe.ingredients.vals
    requires forall k :: k in ks ==> k !in acc.vals
    requires MealLines(data, participants, recipe, ks, acc).Success?
    ensures MealLines(data, participants, recipe, ks, acc).value.order == acc.order + ks
    decreases |ks|
  {
    if ks != [] {
      var k := ks[0];
      DistinctTail(ks);
      assert k in ks;
      var acc' := Put(acc, k, Portion(data, participants, recipe, k));
      assert acc'.order == acc.order + [k];
      assert forall j :: j in ks[1..] ==> j in ks && j != k;
      MealLinesOrder(data, participants, recipe, ks[1..], acc');
      assert MealLines(data, participants, recipe, ks, acc) == MealLines(data, participants, recipe, ks[1..], acc');
      AppendHeadTail(acc.order, ks);
    }
  }

  /** `addMealIngredientList(meal, count)`: the shopping list of one meal on
      its own, in recipe order, each value the converted quantity times the
      participants. The count is accepted but plays no part. */
  function MealList(data: Data, participants: int, meal: string, count: int): (r: Result<Record<real>, Error>)
    ensures r.Success? <==> Cookable(data, meal)
    ensures meal !in data.recipes ==> r == Failure(UnknownMeal(meal))
    ensures meal in data.recipes && r.Failure? ==>
              FirstLineError(data, data.recipes[meal], data.recipes[meal].ingredients.order, r.error)
    ensures r.Success? ==> r.value.order == data.recipes[meal].ingredients.order
    ensures r.Success? ==> forall k :: Get0(r.value, k) == Portion(data, participants, data.recipes[meal], k)
  {
    if meal !in data.recipes then Failure(UnknownMeal(meal))
    else
      var recipe := data.recipes[meal];
      var r := MealLines(data, participants, recipe, recipe.ingredients.order, Empty());
      if r.Success? then
        MealLinesValues(data, participants, recipe, recipe.ingredients.order, Empty());
        MealLinesOrder(data, participants, recipe, recipe.ingredients.order, Empty());
        assert forall k :: k !in recipe.ingredients.order ==> Portion(data, participants, recipe, k) == 0.0;
        r
      else r
  }

  /** The per-meal list and the aggregation fail with the same error: both
      walk the recipe in the same order and stop at the first bad line. */
  lemma {:induction false} LinesFailAlike(data: Data, participants: int, recipe: Recipe, count: int,
                                          ks: seq<string>, acc: Record<real>, acc': Record<real>)
    requires Distinct(ks)
    requires forall k :: k in ks ==> k in recipe.ingredients.vals
    ensures MealLines(data, participants, recipe, ks, acc).Failure? ==>
              AddLines(data, participants, recipe, count, ks, acc') ==
              Failure(MealLines(data, participants, recipe, ks, acc).error)
    decreases |ks|
  {
    if ks != [] {
      var k := ks[0];
      DistinctTail(ks);
      if Resolves(data, k) {
        LinesFailAlike(data, participants, recipe, count, ks[1..],
                       Put(acc, k, Portion(data, participants, recipe, k)),
                       Bump(acc', k, Share(data, participants, recipe, count, k)));
      }
    }
  }

  lemma MealListFailsLikeAddIngredients(data: Data, participants: int, acc: Record<real>, meal: string, count: int)
    ensures MealList(data, participants, meal, count).Failure? ==>
              AddIngredients(data, participants, acc, meal, count) == Failure(MealList(data, participants, meal, count).error)
  {
    if meal in data.recipes {
      var recipe := data.recipes[meal];
      LinesFailAlike(data, participants, recipe, count, recipe.ingredients.order, Empty(), acc);
    }
  }

  /** What `addIngredients` adds for a meal is its per-meal list scaled by the count. */
  lemma AddIngredientsScalesMealList(data: Data, participants: int, acc: Record<real>, meal: string, count: int)
    requires MealList(data, participants, meal, count).Success?
    ensures AddIngredients(data, participants, acc, meal, count).Success?
    ensures forall k :: Get0(AddIngredients(data, participants, acc, meal, count).value, k) ==
              Get0(acc, k) + Scale(Get0(MealList(data, participants, meal, count).value, k), count)
  {
    ScaleZero(count);
  }
}
