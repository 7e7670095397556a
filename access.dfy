/** The protected-content route (server.js, `/api/courses/:id/content`, lines 134-145), after the
    bearer middleware has admitted the caller. */
module Access {
  import opened Wrappers
  import opened Catalog
  import opened Ledger
  import opened Pricing

  /** 404 "Course not found", 403 "You do not own this course", or 200 with the full modules. */
  datatype ContentResult = NotFound | Forbidden | Content(modules: seq<CourseModule>)

  /** Existence of the course is checked first, then ownership; the modules go out unfiltered. */
  function GetContent(catalog: seq<Course>, purchased: seq<PurchaseRecord>, courseId: int): (r: ContentResult)
    ensures r.NotFound? <==> forall k :: k in catalog ==> k.id != courseId
    ensures r.Forbidden? <==>
      (exists k :: k in catalog && k.id == courseId) && forall i :: 0 <= i < |purchased| ==> purchased[i].courseId != courseId
    ensures r.Content? ==>
      HasAccess(purchased, courseId) && exists k :: k in catalog && k.id == courseId && k.modules == r.modules
  {
    match FindCourse(catalog, courseId)
    case None => NotFound
    case Some(course) =>
      if !HasAccess(purchased, courseId) then Forbidden
      else Content(course.modules)
  }

  /** With unique catalog ids, an owner of a listed course receives exactly that course's modules. */
  lemma OwnerGetsModules(catalog: seq<Course>, purchased: seq<PurchaseRecord>, i: nat)
    requires UniqueIds(catalog) && i < |catalog| && HasAccess(purchased, catalog[i].id)
    ensures GetContent(catalog, purchased, catalog[i].id) == Content(catalog[i].modules)
  {
    FindUnique(catalog, i);
  }

  /** Access is monotone: once the content is released it stays released as the list grows. */
  lemma ContentPersists(catalog: seq<Course>, purchased: seq<PurchaseRecord>, longer: seq<PurchaseRecord>, courseId: int)
    requires purchased <= longer && GetContent(catalog, purchased, courseId).Content?
    ensures GetContent(catalog, longer, courseId) == GetContent(catalog, purchased, courseId)
  {
    AccessPersists(purchased, longer, courseId);
  }

  /** After a verified grant every requested course that the catalog lists is released. */
  lemma GrantedCoursesReleased(catalog: seq<Course>, purchased: seq<PurchaseRecord>, courseIds: seq<int>,
                               orderId: string, paymentId: string, now: Timestamp, i: nat)
    requires UniqueIds(catalog) && i < |catalog| && catalog[i].id in courseIds
    ensures GetContent(catalog, Granted(purchased, courseIds, orderId, paymentId, now), catalog[i].id)
         == Content(catalog[i].modules)
  {
    GrantedCovers(purchased, courseIds, orderId, paymentId, now);
    OwnerGetsModules(catalog, Granted(purchased, courseIds, orderId, paymentId, now), i);
  }

  /** A freshly registered user (empty purchase list) is refused the first seeded course. */
  lemma NewUserForbidden()
    ensures GetContent(SeedCatalog(), [], 1) == Forbidden
  {
    var c := SeedCatalog();
    assert c[0] in c && c[0].id == 1;
  }

  /** After a verified payment for course 1 the same user receives its modules. */
  lemma PaidUserGetsContent(orderId: string, paymentId: string, now: Timestamp)
    ensures GetContent(SeedCatalog(), Granted([], [1], orderId, paymentId, now), 1) == Content(SeedCatalog()[0].modules)
  {
    GrantedCoursesReleased(SeedCatalog(), [], [1], orderId, paymentId, now, 0);
  }

  /** The guard is not the only way to the modules: a caller the content route refuses with
      Forbidden receives the same modules from a successful order creation for that course. */
  lemma GuardBypassedByCreateOrder(catalog: seq<Course>, purchased: seq<PurchaseRecord>, now: int,
                                   createAtProvider: OrderOptions -> Option<ProviderOrder>, i: nat)
    requires UniqueIds(catalog) && i < |catalog| && !HasAccess(purchased, catalog[i].id)
    requires createAtProvider(OrderOptions(100 * catalog[i].price, "INR", now)).Some?
    ensures GetContent(catalog, purchased, catalog[i].id) == Forbidden
    ensures var r := CreateOrder(catalog, [catalog[i].id], now, createAtProvider);
      r.Created? && exists k :: k in r.courses && k.modules == catalog[i].modules
  {
    assert catalog[i] in catalog;
    assert OrderAmount(catalog, [catalog[i].id]) == catalog[i].price by {
      NoKnownIdsCostNothing(catalog, []);
      NewIdAddsPrice(catalog, [], i);
      assert [] + [catalog[i].id] == [catalog[i].id];
    }
    CreatedRevealsModules(catalog, [catalog[i].id], now, createAtProvider, i);
  }
}
