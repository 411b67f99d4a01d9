/** The `calculate` loop of the `Menu` class: the menu plan is walked in key
    order; a meal whose count is exactly 0 is skipped, every other meal
    first gets its own section (`addMealIngredientList`) and then is added to
    the running shopping list (`addIngredients`). */
module Calculation {
  import opened Wrappers
  import opened Records
  import opened Menu

  /** The page written for one meal: its name and its own shopping list. */
  datatype Section = Section(title: string, list: Record<real>)

  /** What `calculate` builds up: the meal sections so far and the running totals. */
  datatype State = State(sections: seq<Section>, totals: Record<real>)

  /** The count of `meal` in the plan (the values of the plan object), 0 for a meal the plan does not list. */
  function Count(counts: map<string, int>, meal: string): int {
    if meal in counts then counts[meal] else 0
  }

  /** The meals of `ms` the plan serves, that is whose count is not 0, in order. */
  function Included(counts: map<string, int>, ms: seq<string>): (r: seq<string>)
    ensures forall m :: m in r <==> m in ms && Count(counts, m) != 0
    ensures |r| <= |ms|
  {
    if ms == [] then []
    else if Count(counts, ms[0]) != 0 then [ms[0]] + Included(counts, ms[1..])
    else Included(counts, ms[1..])
  }

  /** The loop body of `calculate` applied to the meals `ms` still to do. */
  function Steps(data: Data, participants: int, counts: map<string, int>, ms: seq<string>, st: State): (r: Result<State, Error>)
    ensures r.Success? <==> forall m :: m in ms && Count(counts, m) != 0 ==> Cookable(data, m)
    decreases |ms|
  {
    if ms == [] then Success(st)
    else
      var meal := ms[0];
      var count := Count(counts, meal);
      if count == 0 then Steps(data, participants, counts, ms[1..], st)
      else
        match MealList(data, participants, meal, count)
        case Failure(e) => Failure(e)
        case Success(list) =>
          match AddIngredients(data, participants, st.totals, meal, count)
          case Failure(e) => Failure(e)
          case Success(totals) =>
            Steps(data, participants, counts, ms[1..], State(st.sections + [Section(meal, list)], totals))
  }

  /** What the served meals of `ms` contribute to the total of ingredient `k`. */
  function Expected(data: Data, participants: int, counts: map<string, int>, ms: seq<string>, k: string): real
    decreases |ms|
  {
    if ms == [] then 0.0
    else
      var meal := ms[0];
      var count := Count(counts, meal);
      var here := if count != 0 && meal in data.recipes
                  then Share(data, participants, data.recipes[meal], count, k) else 0.0;
      here + Expected(data, participants, counts, ms[1..], k)
  }

  /** Some served meal of `ms` has a recipe that uses ingredient `k`. */
  predicate Mentioned(data: Data, counts: map<string, int>, ms: seq<string>, k: string) {
    exists m :: m in ms && Count(counts, m) != 0 && m in data.recipes && k in data.recipes[m].ingredients.vals
  }

  /** A successful walk adds, for every ingredient, the shares of all served
      meals; it lists exactly the ingredients some served meal uses, and it
      never reorders the ones already listed. */
  lemma {:induction false} StepsTotals(data: Data, participants: int, counts: map<string, int>, ms: seq<string>, st: State)
    requires Steps(data, participants, counts, ms, st).Success?
    ensures forall k :: Get0(Steps(data, participants, counts, ms, st).value.totals, k) ==
              Get0(st.totals, k) + Expected(data, participants, counts, ms, k)
    ensures forall k :: k in Steps(data, participants, counts, ms, st).value.totals.vals <==>
              k in st.totals.vals || Mentioned(data, counts, ms, k)
    ensures st.totals.order <= Steps(data, participants, counts, ms, st).value.totals.order
    decreases |ms|
  {
    if ms != [] {
      var meal := ms[0];
      var count := Count(counts, meal);
      assert meal in ms;
      if count == 0 {
        StepsTotals(data, participants, counts, ms[1..], st);
        forall k ensures Mentioned(data, counts, ms, k) <==> Mentioned(data, counts, ms[1..], k) {
          if Mentioned(data, counts, ms, k) {
            var m :| m in ms && Count(counts, m) != 0 && m in data.recipes && k in data.recipes[m].ingredients.vals;
            assert m != meal;
            assert m in ms[1..];
          }
        }
      } else {
        var list := MealList(data, participants, meal, count).value;
        var totals := AddIngredients(data, participants, st.totals, meal, count).value;
        var st' := State(st.sections + [Section(meal, list)], totals);
        assert Steps(data, participants, counts, ms, st) == Steps(data, participants, counts, ms[1..], st');
        StepsTotals(data, participants, counts, ms[1..], st');
        forall k ensures Mentioned(data, counts, ms, k) <==>
                           k in data.recipes[meal].ingredients.vals || Mentioned(data, counts, ms[1..], k) {
          if Mentioned(data, counts, ms, k) {
            var m :| m in ms && Count(counts, m) != 0 && m in data.recipes && k in data.recipes[m].ingredients.vals;
            if m != meal {
              assert m in ms[1..];
            }
          }
        }
      }
    }
  }

  /** The ingredient names listed after `seen` once the served meals of `ms`
      are added: each new name goes to the end, in the order of the first
      recipe that uses it. */
  function FirstUse(data: Data, counts: map<string, int>, ms: seq<string>, seen: seq<string>): seq<string>
    decreases |ms|
  {
    if ms == [] then seen
    else if Count(counts, ms[0]) != 0 && ms[0] in data.recipes then
      FirstUse(data, counts, ms[1..], seen + Fresh(data.recipes[ms[0]].ingredients.order, seen))
    else FirstUse(data, counts, ms[1..], seen)
  }

  /** A successful walk lists the ingredients in the order of their first use. */
  lemma {:induction false} StepsOrder(data: Data, participants: int, counts: map<string, int>, ms: seq<string>, st: State)
    requires Steps(data, participants, counts, ms, st).Success?
    ensures Steps(data, participants, counts, ms, st).value.totals.order == FirstUse(data, counts, ms, st.totals.order)
    decreases |ms|
  {
    if ms != [] {
      var meal := ms[0];
      var count := Count(counts, meal);
      assert meal in ms;
      if count == 0 {
        StepsOrder(data, participants, counts, ms[1..], st);
      } else {
        var list := MealList(data, participants, meal, count).value;
        var totals := AddIngredients(data, participants, st.totals, meal, count).value;
        var st' := State(st.sections + [Section(meal, list)], totals);
        assert Steps(data, participants, counts, ms, st) == Steps(data, participants, counts, ms[1..], st');
        StepsOrder(data, participants, counts, ms[1..], st');
      }
    }
  }

  /** Meal `i` of `ms` is the first served meal that cannot be cooked. */
  predicate FirstBad(data: Data, counts: map<string, int>, ms: seq<string>, i: int) {
    && 0 <= i < |ms|
    && Count(counts, ms[i]) != 0
    && !Cookable(data, ms[i])
    && forall j :: 0 <= j < i && Count(counts, ms[j]) != 0 ==> Cookable(data, ms[j])
  }

  /** A failed walk reports the error of the first served meal that cannot
      be cooked: the error that meal's own list runs into. */
  lemma {:induction false} StepsFirstError(data: Data, participants: int, counts: map<string, int>, ms: seq<string>, st: State)
    requires Steps(data, participants, counts, ms, st).Failure?
    ensures exists i :: FirstBad(data, counts, ms, i) &&
              Steps(data, participants, counts, ms, st).error == MealList(data, participants, ms[i], Count(counts, ms[i])).error
    decreases |ms|
  {
    var meal := ms[0];
    var count := Count(counts, meal);
    if count != 0 && !Cookable(data, meal) {
      assert FirstBad(data, counts, ms, 0);
    } else {
      var st' := if count == 0 then st else
        State(st.sections + [Section(meal, MealList(data, participants, meal, count).value)],
              AddIngredients(data, participants, st.totals, meal, count).value);
      assert Steps(data, participants, counts, ms, st) == Steps(data, participants, counts, ms[1..], st');
      StepsFirstError(data, participants, counts, ms[1..], st');
      var i :| FirstBad(data, counts, ms[1..], i) &&
               Steps(data, participants, counts, ms[1..], st').error ==
               MealList(data, participants, ms[1..][i], Count(counts, ms[1..][i])).error;
      assert ms[i + 1] == ms[1..][i];
      forall j | 0 <= j < i + 1 && Count(counts, ms[j]) != 0 ensures Cookable(data, ms[j]) {
        if j > 0 {
          assert ms[j] == ms[1..][j - 1];
        }
      }
      assert FirstBad(data, counts, ms, i + 1);
    }
  }

  /** `secs` holds one section per meal of `meals`, in the same order, each
      titled with its meal and holding that meal's own list. */
  predicate SectionsFor(data: Data, participants: int, counts: map<string, int>, meals: seq<string>, secs: seq<Section>) {
    && |secs| == |meals|
    && forall i :: 0 <= i < |secs| ==>
         && secs[i].title == meals[i]
         && MealList(data, participants, meals[i], Count(counts, meals[i])) == Success(secs[i].list)
  }

  lemma SectionsForCons(data: Data, participants: int, counts: map<string, int>, meals: seq<string>, secs: seq<Section>,
                        meal: string, list: Record<real>)
    requires SectionsFor(data, participants, counts, meals, secs)
    requires MealList(data, participants, meal, Count(counts, meal)) == Success(list)
    ensures SectionsFor(data, participants, counts, [meal] + meals, [Section(meal, list)] + secs)
  {
    var meals' := [meal] + meals;
    var secs' := [Section(meal, list)] + secs;
    forall i | 1 <= i < |secs'|
      ensures secs'[i].title == meals'[i]
      ensures MealList(data, participants, meals'[i], Count(counts, meals'[i])) == Success(secs'[i].list)
    {
      assert secs'[i] == secs[i - 1] && meals'[i] == meals[i - 1];
    }
  }

  lemma SuffixCons<T>(a: seq<T>, n: nat)
    requires n < |a|
    ensures a[n..] == [a[n]] + a[n + 1..]
  {
  }

  /** Sections that start with `pre` and one section for `meal`, followed by
      the sections for `meals`, start with `pre` followed by the sections for
      `meal` and `meals`. */
  lemma SectionsStep(data: Data, participants: int, counts: map<string, int>, meal: string, list: Record<real>,
                     meals: seq<string>, pre: seq<Section>, secs: seq<Section>)
    requires MealList(data, participants, meal, Count(counts, meal)) == Success(list)
    requires |pre| + 1 <= |secs| && secs[..|pre| + 1] == pre + [Section(meal, list)]
    requires SectionsFor(data, participants, counts, meals, secs[|pre| + 1..])
    ensures |pre| <= |secs| && secs[..|pre|] == pre
    ensures SectionsFor(data, participants, counts, [meal] + meals, secs[|pre|..])
  {
    assert secs[..|pre|] == secs[..|pre| + 1][..|pre|];
    assert secs[|pre|] == secs[..|pre| + 1][|pre|];
    SuffixCons(secs, |pre|);
    SectionsForCons(data, participants, counts, meals, secs[|pre| + 1..], meal, list);
  }

  /** A successful walk appends one section per served meal of `ms`, in
      order, each holding that meal's own list, after the sections already
      written. */
  lemma {:induction false} StepsSections(data: Data, participants: int, counts: map<string, int>, ms: seq<string>, st: State)
    requires Steps(data, participants, counts, ms, st).Success?
    ensures var secs := Steps(data, participants, counts, ms, st).value.sections;
            && |st.sections| <= |secs|
            && secs[..|st.sections|] == st.sections
            && SectionsFor(data, participants, counts, Included(counts, ms), secs[|st.sections|..])
    decreases |ms|
  {
    if ms == [] {
      assert Steps(data, participants, counts, ms, st) == Success(st);
    } else {
      var meal := ms[0];
      var count := Count(counts, meal);
      if count == 0 {
        StepsSections(data, participants, counts, ms[1..], st);
      } else {
        var list := MealList(data, participants, meal, count).value;
        var totals := AddIngredients(data, participants, st.totals, meal, count).value;
        var st' := State(st.sections + [Section(meal, list)], totals);
        assert Steps(data, participants, counts, ms, st) == Steps(data, participants, counts, ms[1..], st');
        StepsSections(data, participants, counts, ms[1..], st');
        assert Included(counts, ms) == [meal] + Included(counts, ms[1..]);
        SectionsStep(data, participants, counts, meal, list, Included(counts, ms[1..]), st.sections,
                     Steps(data, participants, counts, ms, st).value.sections);
      }
    }
  }

  /** `calculate`: processes the whole plan, in key order, from no sections
      and an empty shopping list. It succeeds exactly when every served meal
      can be cooked; then there is one section per served meal, in plan
      order, every total is the sum of the served meals' shares, and the
      ingredients are listed in the order of their first use. Otherwise the
      error is the one of the first served meal that cannot be cooked. */
  function Calculate(data: Data, participants: int, menu: Record<int>): (r: Result<State, Error>)
    ensures r.Success? <==> forall m :: m in menu.vals && menu.vals[m] != 0 ==> Cookable(data, m)
    ensures r.Success? ==> forall k ::
              Get0(r.value.totals, k) == Expected(data, participants, menu.vals, menu.order, k)
    ensures r.Success? ==> forall k ::
              k in r.value.totals.vals <==> Mentioned(data, menu.vals, menu.order, k)
    ensures r.Success? ==> SectionsFor(data, participants, menu.vals, Included(menu.vals, menu.order), r.value.sections)
    ensures r.Success? ==> r.value.totals.order == FirstUse(data, menu.vals, menu.order, [])
    ensures r.Failure? ==>
              exists i :: FirstBad(data, menu.vals, menu.order, i) &&
                r.error == MealList(data, participants, menu.order[i], Count(menu.vals, menu.order[i])).error
  {
    var start := State([], Empty());
    var r := Steps(data, participants, menu.vals, menu.order, start);
    if r.Success? then
      StepsTotals(data, participants, menu.vals, menu.order, start);
      StepsSections(data, participants, menu.vals, menu.order, start);
      StepsOrder(data, participants, menu.vals, menu.order, start);
      assert r.value.sections[|start.sections|..] == r.value.sections;
      r
    else
      StepsFirstError(data, participants, menu.vals, menu.order, start);
      r
  }

  lemma {:induction false} ExpectedConcat(data: Data, participants: int, counts: map<string, int>,
                                          a: seq<string>, b: seq<string>, k: string)
    ensures Expected(data, participants, counts, a + b, k) ==
            Expected(data, participants, counts, a, k) + Expected(data, participants, counts, b, k)
    decreases |a|
  {
    if a == [] {
      assert a + b == b;
    } else {
      var meal := a[0];
      var count := Count(counts, meal);
      var here := if count != 0 && meal in data.recipes
                  then Share(data, participants, data.recipes[meal], count, k) else 0.0;
      assert (a + b)[0] == meal;
      assert (a + b)[1..] == a[1..] + b;
      ExpectedConcat(data, participants, counts, a[1..], b, k);
      calc {
        Expected(data, participants, counts, a + b, k);
        here + Expected(data, participants, counts, a[1..] + b, k);
        here + (Expected(data, participants, counts, a[1..], k) + Expected(data, participants, counts, b, k));
        (here + Expected(data, participants, counts, a[1..], k)) + Expected(data, participants, counts, b, k);
        Expected(data, participants, counts, a, k) + Expected(data, participants, counts, b, k);
      }
    }
  }

  /** The expected totals depend only on which meals are listed, not on their order. */
  lemma {:induction false} ExpectedPermutation(data: Data, participants: int, counts: map<string, int>,
                                               a: seq<string>, b: seq<string>, k: string)
    requires multiset(a) == multiset(b)
    ensures Expected(data, participants, counts, a, k) == Expected(data, participants, counts, b, k)
    decreases |a|
  {
    if a == [] {
      assert |b| == |multiset(b)|;
    } else {
      var x := a[0];
      assert x in multiset(b) by {
        assert x in multiset(a);
      }
      var j :| 0 <= j < |b| && b[j] == x;
      var rest := b[..j] + b[j + 1..];
      PermutationRemove(a, b, j);
      assert b == b[..j] + ([x] + b[j + 1..]);
      ExpectedPermutation(data, participants, counts, a[1..], rest, k);
      ExpectedConcat(data, participants, counts, b[..j], b[j + 1..], k);
      ExpectedConcat(data, participants, counts, b[..j], [x] + b[j + 1..], k);
      ExpectedConcat(data, participants, counts, [x], b[j + 1..], k);
      assert a == [x] + a[1..];
      ExpectedConcat(data, participants, counts, [x], a[1..], k);
    }
  }

  /** Reordering the menu plan changes the order of the sections but neither
      the outcome nor any total nor the set of listed ingredients. */
  lemma CalculateOrderIndependent(data: Data, participants: int, menu: Record<int>, menu': Record<int>)
    requires menu'.vals == menu.vals
    ensures Calculate(data, participants, menu).Success? <==> Calculate(data, participants, menu').Success?
    ensures Calculate(data, participants, menu).Success? ==> forall k ::
              Get0(Calculate(data, participants, menu).value.totals, k) ==
              Get0(Calculate(data, participants, menu').value.totals, k)
    ensures Calculate(data, participants, menu).Success? ==> forall k ::
              k in Calculate(data, participants, menu).value.totals.vals <==>
              k in Calculate(data, participants, menu').value.totals.vals
  {
    DistinctSameKeysPermutation(menu.order, menu'.order);
    forall k ensures Expected(data, participants, menu.vals, menu.order, k) ==
                     Expected(data, participants, menu.vals, menu'.order, k) {
      ExpectedPermutation(data, participants, menu.vals, menu.order, menu'.order, k);
    }
  }

  /** A meal whose count is 0 is skipped as if the plan did not list it: even
      a meal without a recipe then causes no failure, no section and no total. */
  lemma {:induction false} StepsSkipZero(data: Data, participants: int, counts: map<string, int>,
                                         ms: seq<string>, st: State, meal: string)
    requires Count(counts, meal) == 0
    ensures Steps(data, participants, counts, ms, st) ==
            Steps(data, participants, counts - {meal}, Drop(ms, meal), st)
    decreases |ms|
  {
    if ms != [] {
      StepsSkipZero(data, participants, counts, ms[1..], st, meal);
      var m := ms[0];
      assert Count(counts - {meal}, m) == Count(counts, m);
      if m != meal && Count(counts, m) != 0 {
        var count := Count(counts, m);
        var list := MealList(data, participants, m, count);
        var totals := AddIngredients(data, participants, st.totals, m, count);
        if list.Success? && totals.Success? {
          var st' := State(st.sections + [Section(m, list.value)], totals.value);
          StepsSkipZero(data, participants, counts, ms[1..], st', meal);
        }
      }
    }
  }

  lemma CalculateSkipsZero(data: Data, participants: int, menu: Record<int>, meal: string)
    requires meal in menu.vals && menu.vals[meal] == 0
    ensures Calculate(data, participants, menu) == Calculate(data, participants, Without(menu, meal))
  {
    StepsSkipZero(data, participants, menu.vals, menu.order, State([], Empty()), meal);
  }
}
