/** The three collections the handlers and hooks work on, held in memory: lookup
    by id, the `findByIdAndUpdate` write-back onto a bootcamp, and removal. */
module Store {
  import opened Common
  import opened JsRuntime
  import opened Json
  import opened OperatorRewrite
  import opened QueryPlanner
  import opened Aggregates
  import opened CourseModel
  import opened ReviewModel

  /** A stored bootcamp: its request-supplied fields and the two aggregates the
      course and review hooks maintain (absent until first written). */
  datatype Bootcamp = Bootcamp(
    id: Id, fields: map<string, string>, averageCost: Option<int>, averageRating: Option<real>)

  // ---------------------------------------------------------------------------
  // Ids and lookup by id

  /** The position of the first occurrence of `id`: what `findById` finds. */
  function IndexOf(ids: seq<Id>, id: Id): (k: Option<nat>)
    ensures k.None? <==> id !in ids
    ensures k.Some? ==> k.value < |ids| && ids[k.value] == id
    ensures k.Some? ==> forall j :: 0 <= j < k.value ==> ids[j] != id
  {
    if ids == [] then None
    else if ids[0] == id then Some(0)
    else
      match IndexOf(ids[1..], id)
      case None => None
      case Some(k) => Some(k + 1)
  }

  predicate Distinct(ids: seq<Id>) {
    forall i, j :: 0 <= i < j < |ids| ==> ids[i] != ids[j]
  }

  /** Every id is below `n`, so `n` is fresh. */
  predicate Below(ids: seq<Id>, n: nat) {
    forall i :: 0 <= i < |ids| ==> ids[i] < n
  }

  function RemoveAt<T>(s: seq<T>, k: nat): (r: seq<T>)
    requires k < |s|
    ensures |r| == |s| - 1
  {
    s[..k] + s[k + 1..]
  }

  /** A fresh id may be appended to distinct ids below the counter. */
  lemma DistinctAppendFresh(ids: seq<Id>, n: nat)
    requires Distinct(ids) && Below(ids, n)
    ensures Distinct(ids + [n]) && Below(ids + [n], n + 1)
  {
    var ids' := ids + [n];
    forall i, j | 0 <= i < j < |ids'| ensures ids'[i] != ids'[j] {
      assert ids'[i] == ids[i];
    }
  }

  /** Removing one id keeps the rest distinct and below the counter. */
  lemma DistinctRemove(ids: seq<Id>, k: nat, n: nat)
    requires Distinct(ids) && Below(ids, n) && k < |ids|
    ensures Distinct(RemoveAt(ids, k)) && Below(RemoveAt(ids, k), n)
  {
    var ids' := RemoveAt(ids, k);
    forall i | 0 <= i < |ids'| ensures ids'[i] == ids[if i < k then i else i + 1] {
    }
  }

  function BootcampIds(bs: seq<Bootcamp>): (ids: seq<Id>)
    ensures |ids| == |bs| && forall i :: 0 <= i < |bs| ==> ids[i] == bs[i].id
  {
    seq(|bs|, i requires 0 <= i < |bs| => bs[i].id)
  }

  function CourseIds(cs: seq<Course>): (ids: seq<Id>)
    ensures |ids| == |cs| && forall i :: 0 <= i < |cs| ==> ids[i] == cs[i].id
  {
    seq(|cs|, i requires 0 <= i < |cs| => cs[i].id)
  }

  function ReviewIds(rs: seq<Review>): (ids: seq<Id>)
    ensures |ids| == |rs| && forall i :: 0 <= i < |rs| ==> ids[i] == rs[i].id
  {
    seq(|rs|, i requires 0 <= i < |rs| => rs[i].id)
  }

  /** `Bootcamp.findById(id)`. */
  function FindBootcamp(bs: seq<Bootcamp>, id: Id): (r: Option<Bootcamp>)
    ensures r.Some? ==> r.value in bs && r.value.id == id
    ensures r.None? <==> forall i :: 0 <= i < |bs| ==> bs[i].id != id
  {
    match IndexOf(BootcampIds(bs), id)
    case None => None
    case Some(k) => Some(bs[k])
  }

  /** `Course.findById(id)`. */
  function FindCourse(cs: seq<Course>, id: Id): (r: Option<Course>)
    ensures r.Some? ==> r.value in cs && r.value.id == id
    ensures r.None? <==> forall i :: 0 <= i < |cs| ==> cs[i].id != id
  {
    match IndexOf(CourseIds(cs), id)
    case None => None
    case Some(k) => Some(cs[k])
  }

  // ---------------------------------------------------------------------------
  // findByIdAndUpdate on the bootcamp collection

  /** The updates the handlers and the hooks apply to one bootcamp. */
  datatype BootcampUpdate =
    | SetCost(cost: int)
    | SetRating(rating: real)
    | MergeFields(body: map<string, string>)

  function ApplyUpdate(b: Bootcamp, u: BootcampUpdate): (r: Bootcamp)
    ensures r.id == b.id
  {
    match u
    case SetCost(v) => b.(averageCost := Some(v))
    case SetRating(v) => b.(averageRating := Some(v))
    case MergeFields(body) => b.(fields := b.fields + body)
  }

  /** `Bootcamp.findByIdAndUpdate(id, update)`: the bootcamp with that id is
      updated; every other one, and the order, stay as they were; an unknown id
      changes nothing. */
  function UpdateById(bs: seq<Bootcamp>, id: Id, u: BootcampUpdate): (r: seq<Bootcamp>)
    ensures |r| == |bs|
    ensures forall i :: 0 <= i < |bs| ==> r[i].id == bs[i].id
    ensures forall i :: 0 <= i < |bs| ==> r[i] == bs[i] || r[i] == ApplyUpdate(bs[i], u)
    ensures forall i :: 0 <= i < |bs| && bs[i].id != id ==> r[i] == bs[i]
  {
    match IndexOf(BootcampIds(bs), id)
    case None => bs
    case Some(k) => bs[k := ApplyUpdate(bs[k], u)]
  }

  lemma IdsAfterUpdate(bs: seq<Bootcamp>, id: Id, u: BootcampUpdate)
    ensures BootcampIds(UpdateById(bs, id, u)) == BootcampIds(bs)
  {
  }

  /** Looking a bootcamp up after an update by id: the updated one is found with
      the update applied, any other is found exactly as before. */
  lemma FindAfterUpdate(bs: seq<Bootcamp>, id: Id, u: BootcampUpdate, other: Id)
    ensures FindBootcamp(UpdateById(bs, id, u), other) ==
      if other == id && FindBootcamp(bs, id).Some?
      then Some(ApplyUpdate(FindBootcamp(bs, id).value, u))
      else FindBootcamp(bs, other)
  {
    var r := UpdateById(bs, id, u);
    IdsAfterUpdate(bs, id, u);
    var k := IndexOf(BootcampIds(bs), id);
    var k' := IndexOf(BootcampIds(bs), other);
    if k.Some? {
      assert r == bs[k.value := ApplyUpdate(bs[k.value], u)];
    }
  }

  /** Lines 47-70 of models/Course.js: the bootcamps after `getAverageCost`. An
      empty group makes `obj[0]` undefined, the TypeError is caught and the
      bootcamps stay as they were. */
  function RecomputedCost(bs: seq<Bootcamp>, cs: seq<Course>, bootcamp: Id): seq<Bootcamp> {
    match AverageCost(cs, bootcamp)
    case None => bs
    case Some(v) => UpdateById(bs, bootcamp, SetCost(v))
  }

  /** Lines 40-62 of models/Review.js: the bootcamps after `getAverageRating`. */
  function RecomputedRating(bs: seq<Bootcamp>, rs: seq<Review>, bootcamp: Id): seq<Bootcamp> {
    match AverageRating(rs, bootcamp)
    case None => bs
    case Some(v) => UpdateById(bs, bootcamp, SetRating(v))
  }

  /** The recomputation writes only the `averageCost` of the bootcamp whose
      courses it averaged, and writes nothing when that bootcamp has no course. */
  lemma RecomputedCostEffect(bs: seq<Bootcamp>, cs: seq<Course>, bootcamp: Id, other: Id)
    ensures var r := FindBootcamp(RecomputedCost(bs, cs, bootcamp), other);
      var b := FindBootcamp(bs, other);
      if other == bootcamp && b.Some? && AverageCost(cs, bootcamp).Some?
      then r == Some(b.value.(averageCost := AverageCost(cs, bootcamp)))
      else r == b
  {
    var avg := AverageCost(cs, bootcamp);
    if avg.Some? {
      FindAfterUpdate(bs, bootcamp, SetCost(avg.value), other);
    }
  }

  /** The rating recomputation writes only the `averageRating` of that bootcamp,
      and nothing when it has no review. */
  lemma RecomputedRatingEffect(bs: seq<Bootcamp>, rs: seq<Review>, bootcamp: Id, other: Id)
    ensures var r := FindBootcamp(RecomputedRating(bs, rs, bootcamp), other);
      var b := FindBootcamp(bs, other);
      if other == bootcamp && b.Some? && AverageRating(rs, bootcamp).Some?
      then r == Some(b.value.(averageRating := AverageRating(rs, bootcamp)))
      else r == b
  {
    var avg := AverageRating(rs, bootcamp);
    if avg.Some? {
      FindAfterUpdate(bs, bootcamp, SetRating(avg.value), other);
    }
  }

  // ---------------------------------------------------------------------------
  // Courses of one bootcamp and removal

  /** `Course.find({ bootcamp: id })`: that bootcamp's courses in store order. */
  function CoursesOf(cs: seq<Course>, bootcamp: Id): (r: seq<Course>)
    ensures forall c :: c in r <==> c in cs && c.bootcamp == bootcamp
  {
    if cs == [] then []
    else (if cs[0].bootcamp == bootcamp then [cs[0]] else []) + CoursesOf(cs[1..], bootcamp)
  }

  /** The filter distributes over concatenation, so it keeps store order. */
  lemma {:induction false} CoursesOfAppend(a: seq<Course>, b: seq<Course>, bootcamp: Id)
    ensures CoursesOf(a + b, bootcamp) == CoursesOf(a, bootcamp) + CoursesOf(b, bootcamp)
  {
    if a == [] {
      assert a + b == b;
    } else {
      assert (a + b)[0] == a[0];
      assert (a + b)[1..] == a[1..] + b;
      CoursesOfAppend(a[1..], b, bootcamp);
    }
  }

  /** With distinct ids, removing the course at `k` removes exactly the course
      with its id and keeps every other course. */
  lemma RemoveCourseExactly(cs: seq<Course>, k: nat)
    requires k < |cs| && Distinct(CourseIds(cs))
    ensures forall c :: c in RemoveAt(cs, k) <==> c in cs && c.id != cs[k].id
  {
    forall c | c in RemoveAt(cs, k) ensures c in cs && c.id != cs[k].id {
      RemovedCourseElsewhere(cs, k, c);
    }
    forall c | c in cs && c.id != cs[k].id ensures c in RemoveAt(cs, k) {
      KeptCourse(cs, k, c);
    }
  }

  lemma RemovedCourseElsewhere(cs: seq<Course>, k: nat, c: Course)
    requires k < |cs| && Distinct(CourseIds(cs)) && c in RemoveAt(cs, k)
    ensures c in cs && c.id != cs[k].id
  {
    var r := RemoveAt(cs, k);
    var i :| 0 <= i < |r| && r[i] == c;
    var j := if i < k then i else i + 1;
    RemoveAtIndex(cs, k, i);
    assert CourseIds(cs)[j] != CourseIds(cs)[k];
  }

  lemma KeptCourse(cs: seq<Course>, k: nat, c: Course)
    requires k < |cs| && c in cs && c.id != cs[k].id
    ensures c in RemoveAt(cs, k)
  {
    var j :| 0 <= j < |cs| && cs[j] == c;
    var i := if j < k then j else j - 1;
    RemoveAtIndex(cs, k, i);
  }

  lemma RemoveAtIndex<T>(s: seq<T>, k: nat, i: nat)
    requires k < |s| && i < |s| - 1
    ensures RemoveAt(s, k)[i] == s[if i < k then i else i + 1]
  {
  }

  // ---------------------------------------------------------------------------
  // What every state of the database satisfies

  /** Bootcamp ids are unique and below the counter; every written average cost
      is a multiple of ten and every written average rating lies in 1..10. */
  predicate BootcampsOk(bs: seq<Bootcamp>, n: nat) {
    && Distinct(BootcampIds(bs)) && Below(BootcampIds(bs), n)
    && (forall i :: 0 <= i < |bs| && bs[i].averageCost.Some? ==> bs[i].averageCost.value % 10 == 0)
    && (forall i :: 0 <= i < |bs| && bs[i].averageRating.Some? ==>
          1.0 <= bs[i].averageRating.value <= 10.0)
  }

  /** Course ids are unique and below the counter and every course passed its schema. */
  predicate CoursesOk(cs: seq<Course>, n: nat) {
    && Distinct(CourseIds(cs)) && Below(CourseIds(cs), n)
    && (forall i :: 0 <= i < |cs| ==> ValidCourse(cs[i]))
  }

  /** Review ids are unique and below the counter, every review passed its schema
      and the unique (bootcamp, user) index holds. */
  predicate ReviewsOk(rs: seq<Review>, n: nat) {
    && Distinct(ReviewIds(rs)) && Below(ReviewIds(rs), n)
    && AllValid(rs) && UniquePairs(rs)
  }

  /** The updates that keep the aggregates in range. */
  predicate UpdateOk(u: BootcampUpdate) {
    match u
    case SetCost(v) => v % 10 == 0
    case SetRating(v) => 1.0 <= v <= 10.0
    case MergeFields(_) => true
  }

  lemma UpdateKeepsBootcampsOk(bs: seq<Bootcamp>, n: nat, id: Id, u: BootcampUpdate)
    requires BootcampsOk(bs, n) && UpdateOk(u)
    ensures BootcampsOk(UpdateById(bs, id, u), n)
  {
    IdsAfterUpdate(bs, id, u);
  }

  lemma RecomputedCostOk(bs: seq<Bootcamp>, cs: seq<Course>, bootcamp: Id, n: nat)
    requires BootcampsOk(bs, n)
    ensures BootcampsOk(RecomputedCost(bs, cs, bootcamp), n)
  {
    var avg := AverageCost(cs, bootcamp);
    if avg.Some? {
      UpdateKeepsBootcampsOk(bs, n, bootcamp, SetCost(avg.value));
    }
  }

  lemma RecomputedRatingOk(bs: seq<Bootcamp>, rs: seq<Review>, bootcamp: Id, n: nat)
    requires BootcampsOk(bs, n) && AllValid(rs)
    ensures BootcampsOk(RecomputedRating(bs, rs, bootcamp), n)
  {
    var avg := AverageRating(rs, bootcamp);
    if avg.Some? {
      AverageRatingInRange(rs, bootcamp);
      UpdateKeepsBootcampsOk(bs, n, bootcamp, SetRating(avg.value));
    }
  }

  lemma BootcampsOkGrow(bs: seq<Bootcamp>, n: nat)
    requires BootcampsOk(bs, n)
    ensures BootcampsOk(bs, n + 1)
  {
  }

  lemma CoursesOkGrow(cs: seq<Course>, n: nat)
    requires CoursesOk(cs, n)
    ensures CoursesOk(cs, n + 1)
  {
  }

  lemma ReviewsOkGrow(rs: seq<Review>, n: nat)
    requires ReviewsOk(rs, n)
    ensures ReviewsOk(rs, n + 1)
  {
  }

  lemma AppendBootcampOk(bs: seq<Bootcamp>, n: nat, b: Bootcamp)
    requires BootcampsOk(bs, n) && b.id == n && b.averageCost.None? && b.averageRating.None?
    ensures BootcampsOk(bs + [b], n + 1)
  {
    assert BootcampIds(bs + [b]) == BootcampIds(bs) + [n];
    DistinctAppendFresh(BootcampIds(bs), n);
  }

  lemma AppendCourseOk(cs: seq<Course>, n: nat, c: Course)
    requires CoursesOk(cs, n) && c.id == n && ValidCourse(c)
    ensures CoursesOk(cs + [c], n + 1)
  {
    assert CourseIds(cs + [c]) == CourseIds(cs) + [n];
    DistinctAppendFresh(CourseIds(cs), n);
  }

  lemma AppendReviewOk(rs: seq<Review>, n: nat, r: Review)
    requires ReviewsOk(rs, n) && r.id == n && ValidReview(r) && !HasPair(rs, r.bootcamp, r.user)
    ensures ReviewsOk(rs + [r], n + 1)
  {
    assert ReviewIds(rs + [r]) == ReviewIds(rs) + [n];
    DistinctAppendFresh(ReviewIds(rs), n);
    UniquePairsAppend(rs, r);
  }

  lemma RemoveBootcampOk(bs: seq<Bootcamp>, n: nat, k: nat)
    requires BootcampsOk(bs, n) && k < |bs|
    ensures BootcampsOk(RemoveAt(bs, k), n)
  {
    var r := RemoveAt(bs, k);
    assert BootcampIds(r) == RemoveAt(BootcampIds(bs), k);
    DistinctRemove(BootcampIds(bs), k, n);
    forall i | 0 <= i < |r| ensures r[i] == bs[if i < k then i else i + 1] {
    }
  }

  lemma RemoveCourseOk(cs: seq<Course>, n: nat, k: nat)
    requires CoursesOk(cs, n) && k < |cs|
    ensures CoursesOk(RemoveAt(cs, k), n)
  {
    var r := RemoveAt(cs, k);
    assert CourseIds(r) == RemoveAt(CourseIds(cs), k);
    DistinctRemove(CourseIds(cs), k, n);
    forall i | 0 <= i < |r| ensures r[i] == cs[if i < k then i else i + 1] {
    }
  }

  lemma UpdateCourseOk(cs: seq<Course>, n: nat, k: nat, body: CourseBody)
    requires CoursesOk(cs, n) && k < |cs|
    ensures var u := UpdateCourseDoc(cs[k], body);
      u.Ok? ==> CoursesOk(cs[k := u.value], n)
  {
    var u := UpdateCourseDoc(cs[k], body);
    if u.Ok? {
      assert ValidCourse(cs[k]);
      assert CourseIds(cs[k := u.value]) == CourseIds(cs);
    }
  }

  lemma RemoveReviewOk(rs: seq<Review>, n: nat, k: nat)
    requires ReviewsOk(rs, n) && k < |rs|
    ensures ReviewsOk(RemoveAt(rs, k), n)
  {
    var r := RemoveAt(rs, k);
    assert ReviewIds(r) == RemoveAt(ReviewIds(rs), k);
    DistinctRemove(ReviewIds(rs), k, n);
    UniquePairsRemove(rs, k);
    forall i | 0 <= i < |r| ensures r[i] == rs[if i < k then i else i + 1] {
    }
  }

  // ---------------------------------------------------------------------------
  // The database

  class Database {
    var bootcamps: seq<Bootcamp>
    var courses: seq<Course>
    var reviews: seq<Review>
    /** The next fresh document id. */
    var nextId: nat

    /** Ids are unique and below the counter; every stored course and review
        passed its schema; the unique index holds; the aggregates are in range. */
    ghost predicate Valid()
      reads this
    {
      BootcampsOk(bootcamps, nextId) && CoursesOk(courses, nextId) && ReviewsOk(reviews, nextId)
    }

    constructor ()
      ensures Valid()
      ensures bootcamps == [] && courses == [] && reviews == [] && nextId == 0
    {
      bootcamps := [];
      courses := [];
      reviews := [];
      nextId := 0;
    }

    // -------------------------------------------------------------------------
    // Bootcamps (controllers/bootcamps.js)

    /** Lines 9-86: the reserved keys are deleted from a copy of the query, the
        rest becomes the filter text with its operators rewritten, `select` and
        `sort` become space lists, `page` and `limit` are parsed with their
        defaults, and the pagination descriptors compare the window with the
        number of ALL stored bootcamps. `execute` is the database running the
        plan over the stored bootcamps; when it fails (a negative skip is
        refused, say) the handler passes its error on. */
    method GetBootcamps(query: Props, execute: (seq<Bootcamp>, Plan) -> Result<seq<Bootcamp>>)
      returns (r: Result<Envelope<Bootcamp>>)
      ensures PlanOf(query).Err? ==> r == Err(TypeError)
      ensures PlanOf(query).Ok? && execute(bootcamps, PlanOf(query).value).Err? ==>
        r == Err(execute(bootcamps, PlanOf(query).value).error)
      ensures r.Err? <==> PlanOf(query).Err? || execute(bootcamps, PlanOf(query).value).Err?
      ensures r.Ok? ==>
        && r.value.success
        && Ok(r.value.data) == execute(bootcamps, PlanOf(query).value)
        && r.value.count == |r.value.data|
        && r.value.pagination ==
             PaginationOf(PageOf(Lookup(query, "page")), LimitOf(Lookup(query, "limit")), |bootcamps|)
    {
      var reqQuery := StripReserved(query);
      var queryStr := Stringify(Obj(reqQuery));
      queryStr := RewriteOperators(queryStr);

      var select: Option<string> := None;
      match Lookup(query, "select") {
        case None =>
        case Some(Str(s)) =>
          if s != "" {
            select := Some(CommaListToSpaces(s));
          }
        case Some(_) =>
          r := Err(TypeError);
          return;
      }
      var sortBy := DefaultSort;
      match Lookup(query, "sort") {
        case None =>
        case Some(Str(s)) =>
          if s != "" {
            sortBy := CommaListToSpaces(s);
          }
        case Some(_) =>
          r := Err(TypeError);
          return;
      }

      var page := PageOf(Lookup(query, "page"));
      var limit := LimitOf(Lookup(query, "limit"));
      var startIndex := StartIndex(page, limit);
      var total := |bootcamps|;
      var plan := Plan(queryStr, select, sortBy, startIndex, limit);
      assert SelectDirective(Lookup(query, "select")) == Ok(select);
      assert SortDirective(Lookup(query, "sort")) == Ok(sortBy);
      PlanOfParts(query, select, sortBy);
      var data := execute(bootcamps, plan);
      if data.Err? {
        r := Err(data.error);
        return;
      }
      var pagination := FillPagination(page, limit, total);
      r := Ok(Envelope(true, |data.value|, pagination, data.value));
    }

    /** Lines 91-103: the bootcamp with the id, or 404. */
    method GetBootcamp(id: Id) returns (r: Result<Bootcamp>)
      ensures r.Err? <==> forall i :: 0 <= i < |bootcamps| ==> bootcamps[i].id != id
      ensures r.Err? ==> r.error == NotFound
      ensures r.Ok? ==> r.value in bootcamps && r.value.id == id
    {
      var b := FindBootcamp(bootcamps, id);
      if b.None? {
        r := Err(NotFound);
      } else {
        r := Ok(b.value);
      }
    }

    /** Lines 108-115: the new bootcamp gets a fresh id and no aggregates yet. */
    method CreateBootcamp(fields: map<string, string>) returns (b: Bootcamp)
      requires Valid()
      modifies this
      ensures Valid()
      ensures b == Bootcamp(old(nextId), fields, None, None)
      ensures bootcamps == old(bootcamps) + [b] && nextId == old(nextId) + 1
      ensures courses == old(courses) && reviews == old(reviews)
    {
      b := Bootcamp(nextId, fields, None, None);
      AppendBootcampOk(bootcamps, nextId, b);
      CoursesOkGrow(courses, nextId);
      ReviewsOkGrow(reviews, nextId);
      bootcamps := bootcamps + [b];
      nextId := nextId + 1;
    }

    /** Lines 120-133: the body's fields are merged into the bootcamp with the
        id; an unknown id is a 404 and changes nothing. */
    method UpdateBootcamp(id: Id, body: map<string, string>) returns (r: Result<Bootcamp>)
      requires Valid()
      modifies this
      ensures Valid()
      ensures courses == old(courses) && reviews == old(reviews) && nextId == old(nextId)
      ensures var b := FindBootcamp(old(bootcamps), id);
        if b.None? then r == Err(NotFound) && bootcamps == old(bootcamps)
        else
          && r == Ok(b.value.(fields := b.value.fields + body))
          && bootcamps == UpdateById(old(bootcamps), id, MergeFields(body))
    {
      var b := FindBootcamp(bootcamps, id);
      if b.None? {
        r := Err(NotFound);
        return;
      }
      UpdateKeepsBootcampsOk(bootcamps, nextId, id, MergeFields(body));
      bootcamps := UpdateById(bootcamps, id, MergeFields(body));
      r := Ok(b.value.(fields := b.value.fields + body));
    }

    /** Lines 138-148: the bootcamp with the id is removed; an unknown id is a 404
        and changes nothing. Its courses and reviews are not removed with it. */
    method DeleteBootcamp(id: Id) returns (r: Result<()>)
      requires Valid()
      modifies this
      ensures Valid()
      ensures courses == old(courses) && reviews == old(reviews) && nextId == old(nextId)
      ensures var k := IndexOf(BootcampIds(old(bootcamps)), id);
        if k.None? then r == Err(NotFound) && bootcamps == old(bootcamps)
        else r == Ok(()) && bootcamps == RemoveAt(old(bootcamps), k.value)
    {
      var k := IndexOf(BootcampIds(bootcamps), id);
      if k.None? {
        r := Err(NotFound);
        return;
      }
      RemoveBootcampOk(bootcamps, nextId, k.value);
      bootcamps := RemoveAt(bootcamps, k.value);
      r := Ok(());
    }

    // -------------------------------------------------------------------------
    // The aggregate write-backs (models/Course.js, models/Review.js)

    /** `Course.getAverageCost(bootcamp)`: the bootcamp's `averageCost` becomes the
        rounded-up mean tuition of its courses; nothing else changes. */
    method WriteAverageCost(bootcamp: Id)
      requires Valid()
      modifies this
      ensures Valid()
      ensures bootcamps == RecomputedCost(old(bootcamps), courses, bootcamp)
      ensures courses == old(courses) && reviews == old(reviews) && nextId == old(nextId)
    {
      RecomputedCostOk(bootcamps, courses, bootcamp, nextId);
      bootcamps := RecomputedCost(bootcamps, courses, bootcamp);
    }

    /** `Review.getAverageRating(bootcamp)`: the bootcamp's `averageRating` becomes
        the mean rating of its reviews; nothing else changes. */
    method WriteAverageRating(bootcamp: Id)
      requires Valid()
      modifies this
      ensures Valid()
      ensures bootcamps == RecomputedRating(old(bootcamps), reviews, bootcamp)
      ensures courses == old(courses) && reviews == old(reviews) && nextId == old(nextId)
    {
      RecomputedRatingOk(bootcamps, reviews, bootcamp, nextId);
      bootcamps := RecomputedRating(bootcamps, reviews, bootcamp);
    }

    // -------------------------------------------------------------------------
    // Courses (controllers/courses.js)

    /** Lines 11-18: the courses of the bootcamp, in store order, and their number. */
    method GetCourses(bootcamp: Id) returns (count: nat, data: seq<Course>)
      ensures forall c :: c in data <==> c in courses && c.bootcamp == bootcamp
      ensures data == CoursesOf(courses, bootcamp)
      ensures count == |data|
    {
      data := CoursesOf(courses, bootcamp);
      count := |data|;
    }

    /** Lines 27-43: the course with the id, or 404. */
    method GetCourse(id: Id) returns (r: Result<Course>)
      ensures r.Err? <==> forall i :: 0 <= i < |courses| ==> courses[i].id != id
      ensures r.Err? ==> r.error == NotFound
      ensures r.Ok? ==> r.value in courses && r.value.id == id
    {
      var c := FindCourse(courses, id);
      if c.None? {
        r := Err(NotFound);
      } else {
        r := Ok(c.value);
      }
    }

    /** Lines 48-66: the route's bootcamp id overrides the body's; a missing
        bootcamp is a 404 and a body the schema refuses a validation error, both
        changing nothing; otherwise the course is appended and the post-save
        hook recomputes the bootcamp's average cost. */
    method AddCourse(bootcamp: Id, body: CourseBody, now: int) returns (r: Result<Course>)
      requires Valid()
      modifies this
      ensures Valid()
      ensures r.Ok? ==> r.value.bootcamp == bootcamp && r.value.id == old(nextId)
      ensures var created := CreateCourse(body.(bootcamp := Some(bootcamp)), old(nextId), now);
        if FindBootcamp(old(bootcamps), bootcamp).None? then
          r == Err(NotFound) && unchanged(this)
        else if created.Err? then
          r == Err(ValidationError) && unchanged(this)
        else
          && r == created
          && courses == old(courses) + [created.value]
          && bootcamps == RecomputedCost(old(bootcamps), courses, bootcamp)
          && reviews == old(reviews) && nextId == old(nextId) + 1
    {
      var withBootcamp := body.(bootcamp := Some(bootcamp));
      if FindBootcamp(bootcamps, bootcamp).None? {
        r := Err(NotFound);
        return;
      }
      r := CreateCourse(withBootcamp, nextId, now);
      if r.Err? {
        return;
      }
      SaveCourse(r.value);
    }

    /** `course.save()` of a new, valid course followed by the post-save hook
        (models/Course.js, lines 72-75), which recomputes the average cost of the
        course's bootcamp. */
    method SaveCourse(c: Course)
      requires Valid() && c.id == nextId && ValidCourse(c)
      modifies this
      ensures Valid()
      ensures courses == old(courses) + [c]
      ensures bootcamps == RecomputedCost(old(bootcamps), courses, c.bootcamp)
      ensures reviews == old(reviews) && nextId == old(nextId) + 1
    {
      AppendCourseOk(courses, nextId, c);
      BootcampsOkGrow(bootcamps, nextId);
      ReviewsOkGrow(reviews, nextId);
      courses := courses + [c];
      nextId := nextId + 1;
      WriteAverageCost(c.bootcamp);
    }

    /** Lines 71-89: an unknown id is a 404; a body whose set paths fail their
        validators is refused; otherwise the course is replaced by the updated
        document. `findByIdAndUpdate` fires no save hook, so no average is
        recomputed. */
    method UpdateCourse(id: Id, body: CourseBody) returns (r: Result<Course>)
      requires Valid()
      modifies this
      ensures Valid()
      ensures bootcamps == old(bootcamps) && reviews == old(reviews) && nextId == old(nextId)
      ensures var k := IndexOf(CourseIds(old(courses)), id);
        if k.None? then r == Err(NotFound) && courses == old(courses)
        else
          && r == UpdateCourseDoc(old(courses)[k.value], body)
          && courses == (if r.Ok? then old(courses)[k.value := r.value] else old(courses))
    {
      var k := IndexOf(CourseIds(courses), id);
      if k.None? {
        r := Err(NotFound);
        return;
      }
      UpdateCourseOk(courses, nextId, k.value, body);
      r := UpdateCourseDoc(courses[k.value], body);
      if r.Ok? {
        courses := courses[k.value := r.value];
      }
    }

    /** Lines 94-109: an unknown id is a 404 and changes nothing; otherwise the
        pre-remove hook recomputes the bootcamp's average cost over the courses
        still including this one, and then exactly this course is removed. */
    method DeleteCourse(id: Id) returns (r: Result<()>)
      requires Valid()
      modifies this
      ensures Valid()
      ensures reviews == old(reviews) && nextId == old(nextId)
      ensures var k := IndexOf(CourseIds(old(courses)), id);
        if k.None? then r == Err(NotFound) && unchanged(this)
        else
          && r == Ok(())
          && bootcamps == RecomputedCost(old(bootcamps), old(courses), old(courses)[k.value].bootcamp)
          && courses == RemoveAt(old(courses), k.value)
    {
      var k := IndexOf(CourseIds(courses), id);
      if k.None? {
        r := Err(NotFound);
        return;
      }
      var c := courses[k.value];
      WriteAverageCost(c.bootcamp);
      RemoveCourseOk(courses, nextId, k.value);
      courses := RemoveAt(courses, k.value);
      r := Ok(());
    }

    // -------------------------------------------------------------------------
    // Reviews (models/Review.js)

    /** `review.save()` of a new review: a body the schema refuses is a validation
        error; a second review of the same bootcamp by the same user violates the
        unique index; both change nothing. Otherwise the review is appended and
        the post-save hook recomputes the bootcamp's average rating. */
    method SaveReview(body: ReviewBody, now: int) returns (r: Result<Review>)
      requires Valid()
      modifies this
      ensures Valid()
      ensures var created := CreateReview(body, old(nextId), now);
        if created.Err? then r == Err(ValidationError) && unchanged(this)
        else if HasPair(old(reviews), created.value.bootcamp, created.value.user) then
          r == Err(DuplicateKey) && unchanged(this)
        else
          && r == created
          && reviews == old(reviews) + [created.value]
          && bootcamps == RecomputedRating(old(bootcamps), reviews, created.value.bootcamp)
          && courses == old(courses) && nextId == old(nextId) + 1
    {
      r := CreateReview(body, nextId, now);
      if r.Err? {
        return;
      }
      var review := r.value;
      if HasPair(reviews, review.bootcamp, review.user) {
        r := Err(DuplicateKey);
        return;
      }
      InsertReview(review);
    }

    /** The insert of a new, valid review whose pair is new, followed by the
        post-save hook (models/Review.js, lines 65-68), which recomputes the
        average rating of the review's bootcamp. */
    method InsertReview(review: Review)
      requires Valid() && review.id == nextId && ValidReview(review)
      requires !HasPair(reviews, review.bootcamp, review.user)
      modifies this
      ensures Valid()
      ensures reviews == old(reviews) + [review]
      ensures bootcamps == RecomputedRating(old(bootcamps), reviews, review.bootcamp)
      ensures courses == old(courses) && nextId == old(nextId) + 1
    {
      AppendReviewOk(reviews, nextId, review);
      BootcampsOkGrow(bootcamps, nextId);
      CoursesOkGrow(courses, nextId);
      reviews := reviews + [review];
      nextId := nextId + 1;
      WriteAverageRating(review.bootcamp);
    }

    /** `review.remove()`: an unknown id is a 404 and changes nothing; otherwise
        the pre-remove hook recomputes the bootcamp's average rating over the
        reviews still including this one, and then the review is removed. */
    method RemoveReview(id: Id) returns (r: Result<()>)
      requires Valid()
      modifies this
      ensures Valid()
      ensures courses == old(courses) && nextId == old(nextId)
      ensures var k := IndexOf(ReviewIds(old(reviews)), id);
        if k.None? then r == Err(NotFound) && unchanged(this)
        else
          && r == Ok(())
          && bootcamps == RecomputedRating(old(bootcamps), old(reviews), old(reviews)[k.value].bootcamp)
          && reviews == RemoveAt(old(reviews), k.value)
    {
      var k := IndexOf(ReviewIds(reviews), id);
      if k.None? {
        r := Err(NotFound);
        return;
      }
      var review := reviews[k.value];
      WriteAverageRating(review.bootcamp);
      RemoveReviewOk(reviews, nextId, k.value);
      reviews := RemoveAt(reviews, k.value);
      r := Ok(());
    }
  }
}
