/** Pricing an order (server.js, `/api/payment/create-order`, lines 153-171). */
module Pricing {
  import opened Wrappers
  import opened Catalog

  /** `Course.find({ id: { $in: courseIds } })`: the catalog courses whose id was requested, each
      once, in catalog order. */
  function SelectCourses(catalog: seq<Course>, courseIds: seq<int>): (selected: seq<Course>)
    ensures forall k :: k in selected <==> k in catalog && k.id in courseIds
    ensures |selected| <= |catalog|
    ensures UniqueIds(catalog) ==> UniqueIds(selected)
  {
    if catalog == [] then []
    else
      var rest := SelectCourses(catalog[1..], courseIds);
      assert forall k :: k in catalog <==> k == catalog[0] || k in catalog[1..];
      if catalog[0].id in courseIds then
        if UniqueIds(catalog) then
          HeadIdFresh(catalog, rest);
          ConsUnique(catalog[0], rest);
          [catalog[0]] + rest
        else [catalog[0]] + rest
      else rest
  }

  /** Courses drawn from behind the head of a unique-id catalog all differ from the head in id. */
  lemma HeadIdFresh(catalog: seq<Course>, rest: seq<Course>)
    requires catalog != [] && UniqueIds(catalog) && forall k :: k in rest ==> k in catalog[1..]
    ensures forall k :: k in rest ==> k.id != catalog[0].id
  {
    forall k | k in rest ensures k.id != catalog[0].id {
      var j :| 0 <= j < |catalog[1..]| && catalog[1..][j] == k;
      assert catalog[j + 1] == k;
    }
  }

  /** Putting a course with a new id in front keeps the ids unique. */
  lemma ConsUnique(head: Course, rest: seq<Course>)
    requires UniqueIds(rest) && forall k :: k in rest ==> k.id != head.id
    ensures UniqueIds([head] + rest)
  {
    var s := [head] + rest;
    forall i, j | 0 <= i < j < |s| ensures s[i].id != s[j].id {
      assert s[j] == rest[j - 1];
      if i == 0 { assert rest[j - 1] in rest; }
      else { assert s[i] == rest[i - 1]; }
    }
  }

  /** `courses.reduce((sum, c) => sum + c.price, 0)`. */
  function TotalPrice(courses: seq<Course>): int
  {
    if courses == [] then 0 else courses[0].price + TotalPrice(courses[1..])
  }

  /** The amount in rupees the route reports back and charges. */
  function OrderAmount(catalog: seq<Course>, courseIds: seq<int>): int
  {
    TotalPrice(SelectCourses(catalog, courseIds))
  }

  /** The selection, and so the amount, depends only on which ids were requested: repeats and
      order in the request do not matter. */
  lemma {:induction false} SelectionDependsOnSetOnly(catalog: seq<Course>, a: seq<int>, b: seq<int>)
    requires forall x :: x in a <==> x in b
    ensures SelectCourses(catalog, a) == SelectCourses(catalog, b)
    ensures OrderAmount(catalog, a) == OrderAmount(catalog, b)
    decreases |catalog|
  {
    if catalog != [] {
      SelectionDependsOnSetOnly(catalog[1..], a, b);
    }
  }

  /** Requesting an id the catalog does not hold changes nothing: it is dropped silently. */
  lemma {:induction false} UnknownIdIgnored(catalog: seq<Course>, courseIds: seq<int>, x: int)
    requires forall k :: k in catalog ==> k.id != x
    ensures SelectCourses(catalog, courseIds + [x]) == SelectCourses(catalog, courseIds)
    ensures OrderAmount(catalog, courseIds + [x]) == OrderAmount(catalog, courseIds)
    decreases |catalog|
  {
    if catalog != [] {
      assert catalog[0] in catalog;
      assert forall k :: k in catalog[1..] ==> k in catalog;
      UnknownIdIgnored(catalog[1..], courseIds, x);
    }
  }

  /** Requesting one more catalog course adds exactly its price once. */
  lemma {:induction false} NewIdAddsPrice(catalog: seq<Course>, courseIds: seq<int>, i: nat)
    requires UniqueIds(catalog) && i < |catalog| && catalog[i].id !in courseIds
    ensures OrderAmount(catalog, courseIds + [catalog[i].id]) == OrderAmount(catalog, courseIds) + catalog[i].price
    decreases |catalog|
  {
    var x := catalog[i].id;
    if i == 0 {
      assert forall k :: k in catalog[1..] ==> k.id != x by {
        forall k | k in catalog[1..] ensures k.id != x {
          var j :| 0 <= j < |catalog[1..]| && catalog[1..][j] == k;
          assert catalog[j + 1] == k;
        }
      }
      UnknownIdIgnored(catalog[1..], courseIds, x);
    } else {
      assert catalog[0].id != x;
      assert catalog[1..][i - 1] == catalog[i];
      NewIdAddsPrice(catalog[1..], courseIds, i - 1);
      assert catalog[0].id in courseIds + [x] <==> catalog[0].id in courseIds;
    }
  }

  /** Nothing requested that the catalog knows means an amount of zero. */
  lemma NoKnownIdsCostNothing(catalog: seq<Course>, courseIds: seq<int>)
    requires forall k :: k in catalog ==> k.id !in courseIds
    ensures OrderAmount(catalog, courseIds) == 0
  {
  }

  /** The options handed to the payment provider: amount in paise, currency, and the clock value
      the receipt name is made from. */
  datatype OrderOptions = OrderOptions(amount: int, currency: string, receiptTime: int)

  /** What the provider returns for an order it created. */
  datatype ProviderOrder = ProviderOrder(id: string, amount: int, currency: string)

  /** 500 "Could not create order", or 200 with the order, the priced courses and the amount. */
  datatype CreateOrderResult = ProviderError | Created(order: ProviderOrder, courses: seq<Course>, amount: int)

  /** The create-order route: price the selection and ask the provider for an order of 100 times
      the amount. There is no check that anything was selected. */
  function CreateOrder(catalog: seq<Course>, courseIds: seq<int>, now: int,
                       createAtProvider: OrderOptions -> Option<ProviderOrder>): (r: CreateOrderResult)
    ensures var sent := OrderOptions(100 * OrderAmount(catalog, courseIds), "INR", now);
      (r.ProviderError? <==> createAtProvider(sent).None?) &&
      (r.Created? ==> createAtProvider(sent) == Some(r.order) && r.amount == OrderAmount(catalog, courseIds))
    ensures r.Created? ==> forall k :: k in r.courses <==> k in catalog && k.id in courseIds
    ensures r.Created? ==> r.amount == TotalPrice(r.courses) && (UniqueIds(catalog) ==> UniqueIds(r.courses))
  {
    var courses := SelectCourses(catalog, courseIds);
    var amount := TotalPrice(courses);
    var options := OrderOptions(amount * 100, "INR", now);
    match createAtProvider(options)
    case None => ProviderError
    case Some(order) => Created(order, courses, amount)
  }

  /** An empty or all-unknown selection is not refused: the provider is asked for an order of 0. */
  lemma EmptySelectionReachesProvider(catalog: seq<Course>, courseIds: seq<int>, now: int,
                                      createAtProvider: OrderOptions -> Option<ProviderOrder>)
    requires forall k :: k in catalog ==> k.id !in courseIds
    requires createAtProvider(OrderOptions(0, "INR", now)).Some?
    ensures CreateOrder(catalog, courseIds, now, createAtProvider).Created?
    ensures CreateOrder(catalog, courseIds, now, createAtProvider).amount == 0
  {
    NoKnownIdsCostNothing(catalog, courseIds);
  }

  /** Two distinct catalog courses cost the sum of their two prices. */
  lemma TwoCourseOrder(catalog: seq<Course>, i: nat, j: nat)
    requires UniqueIds(catalog) && i < |catalog| && j < |catalog| && i != j
    ensures OrderAmount(catalog, [catalog[i].id, catalog[j].id]) == catalog[i].price + catalog[j].price
  {
    var x, y := catalog[i].id, catalog[j].id;
    NoKnownIdsCostNothing(catalog, []);
    NewIdAddsPrice(catalog, [], i);
    assert [] + [x] == [x];
    NewIdAddsPrice(catalog, [x], j);
    assert [x] + [y] == [x, y];
  }

  /** The route answers with the full course documents, modules and video references included,
      for every requested catalog course, whether or not the caller owns it. */
  lemma CreatedRevealsModules(catalog: seq<Course>, courseIds: seq<int>, now: int,
                              createAtProvider: OrderOptions -> Option<ProviderOrder>, i: nat)
    requires i < |catalog| && catalog[i].id in courseIds
    requires createAtProvider(OrderOptions(100 * OrderAmount(catalog, courseIds), "INR", now)).Some?
    ensures var r := CreateOrder(catalog, courseIds, now, createAtProvider);
      r.Created? && exists k :: k in r.courses && k.id == catalog[i].id && k.modules == catalog[i].modules
  {
    var r := CreateOrder(catalog, courseIds, now, createAtProvider);
    assert catalog[i] in catalog;
    assert catalog[i] in r.courses;
  }

  /** Courses 1 (1999) and 3 (999) of the seeded catalog cost 2998. */
  lemma SeedAmountOfOneAndThree()
    ensures OrderAmount(SeedCatalog(), [1, 3]) == 2998
  {
    var c := SeedCatalog();
    TwoCourseOrder(c, 0, 2);
    assert [c[0].id, c[2].id] == [1, 3];
  }

  /** For that order the provider is asked for 299800 paise. */
  lemma SeedOrderOfOneAndThree(now: int, createAtProvider: OrderOptions -> Option<ProviderOrder>)
    ensures var r := CreateOrder(SeedCatalog(), [1, 3], now, createAtProvider);
      r.Created? ==> r.amount == 2998 && createAtProvider(OrderOptions(299800, "INR", now)) == Some(r.order)
  {
    SeedAmountOfOneAndThree();
  }
}
