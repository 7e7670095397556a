/** The course catalog as this core reads it: read-only, looked up by the numeric `id`. */
module Catalog {
  import opened Wrappers

  /** A lesson, reduced to its protected video reference (titles and durations are metadata). */
  datatype Lesson = Lesson(videoUrl: string)
  datatype CourseModule = CourseModule(lessons: seq<Lesson>)

  /** A catalog entry; `price` is in whole rupees, the unit the catalog stores. Descriptive
      metadata (slug, title, level, rating, ...) plays no part in this core and is omitted. */
  datatype Course = Course(id: int, price: int, modules: seq<CourseModule>)

  /** The catalog keeps at most one course per `id` (a unique index on the field). */
  predicate UniqueIds(catalog: seq<Course>)
  {
    forall i, j :: 0 <= i < j < |catalog| ==> catalog[i].id != catalog[j].id
  }

  /** `Course.findOne({ id })`: the first course in catalog order with that id, if any. */
  function FindCourse(catalog: seq<Course>, id: int): (r: Option<Course>)
    ensures r.None? <==> forall k :: k in catalog ==> k.id != id
    ensures r.Some? ==> r.value in catalog && r.value.id == id
  {
    if catalog == [] then None
    else if catalog[0].id == id then Some(catalog[0])
    else
      assert forall k :: k in catalog ==> k == catalog[0] || k in catalog[1..];
      FindCourse(catalog[1..], id)
  }

  /** In a catalog with unique ids, the course found is the one at the position of the id. */
  lemma FindUnique(catalog: seq<Course>, i: nat)
    requires UniqueIds(catalog) && i < |catalog|
    ensures FindCourse(catalog, catalog[i].id) == Some(catalog[i])
  {
    var r := FindCourse(catalog, catalog[i].id);
    assert catalog[i] in catalog;
    var k :| 0 <= k < |catalog| && catalog[k] == r.value;
    assert k == i;
  }

  /** The five courses the seeding script inserts (ids 1 to 5), with their prices and the
      video reference of the one lesson each carries. */
  function SeedCatalog(): (c: seq<Course>)
    ensures |c| == 5 && UniqueIds(c)
    ensures forall i :: 0 <= i < |c| ==> c[i].id == i + 1
  {
    [ Course(1, 1999,
        [CourseModule(
          [Lesson("https://<your-storage>/videos/python/m1-l1-20s.mp4")])]),
      Course(2, 2499,
        [CourseModule(
          [Lesson("https://<your-storage>/videos/java/m1-l1-20s.mp4")])]),
      Course(3, 999,
        [CourseModule(
          [Lesson("https://<your-storage>/videos/html/m1-l1-20s.mp4")])]),
      Course(4, 1499,
        [CourseModule(
          [Lesson("https://<your-storage>/videos/css/m1-l1-20s.mp4")])]),
      Course(5, 2999,
        [CourseModule(
          [Lesson("https://<your-storage>/videos/js/m1-l1-20s.mp4")])]) ]
  }
}
