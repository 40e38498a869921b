/** The Course model (models/Course.js): the schema, its validation on create and
    on update, and the value `getAverageCost` computes for a bootcamp. */
module CourseModel {
  import opened Common
  import opened JsRuntime
  import opened Aggregates

  /** The `minimumSkill` enumeration. */
  datatype Skill = Beginner | Intermediate | Advanced

  function SkillName(k: Skill): string {
    match k
    case Beginner => "beginner"
    case Intermediate => "intermediate"
    case Advanced => "advanced"
  }

  /** The `enum` validator of `minimumSkill`: exactly the three names are accepted. */
  function ParseSkill(s: string): (r: Option<Skill>)
    ensures r.Some? ==> SkillName(r.value) == s
    ensures r.None? ==> forall k: Skill :: SkillName(k) != s
  {
    if s == "beginner" then Some(Beginner)
    else if s == "intermediate" then Some(Intermediate)
    else if s == "advanced" then Some(Advanced)
    else None
  }

  /** A stored course. `createdAt` defaults to the clock reading at creation. */
  datatype Course = Course(
    id: Id, title: string, description: string, weeks: string, tuition: real,
    minimumSkill: Skill, scholarshipAvailable: bool, createdAt: int, bootcamp: Id, user: Id)

  /** A request body (`req.body`) for a course: every field may be absent. Values
      are already of the schema's types (Mongoose's casting is not modelled). */
  datatype CourseBody = CourseBody(
    title: Option<string>, description: Option<string>, weeks: Option<string>,
    tuition: Option<real>, minimumSkill: Option<string>, scholarshipAvailable: Option<bool>,
    createdAt: Option<int>, bootcamp: Option<Id>, user: Option<Id>)

  /** The `required` validator of a string path: present and not empty. */
  predicate Present(v: Option<string>) {
    v.Some? && v.value != ""
  }

  /** A course as the schema admits it: title (stored trimmed), description and
      weeks not empty. The other constraints are carried by the field types. */
  predicate ValidCourse(c: Course) {
    c.title != "" && IsTrimmed(c.title) && c.description != "" && c.weeks != ""
  }

  /** Lines 3-44 on create: `title` (after the `trim` setter), `description`,
      `weeks`, `tuition`, `minimumSkill`, `bootcamp` and `user` are required, and
      `minimumSkill` must be one of the enumeration. */
  predicate CreatableBody(b: CourseBody) {
    && b.title.Some? && Trim(b.title.value) != ""
    && Present(b.description)
    && Present(b.weeks)
    && b.tuition.Some?
    && b.minimumSkill.Some? && ParseSkill(b.minimumSkill.value).Some?
    && b.bootcamp.Some?
    && b.user.Some?
  }

  /** `Course.create(body)`: the new document with the trimmed title, the
      defaults (`scholarshipAvailable` false, `createdAt` now) for the paths the
      body leaves out, validated. */
  function CreateCourse(b: CourseBody, id: Id, now: int): (r: Result<Course>)
    ensures r.Ok? <==> CreatableBody(b)
    ensures r.Err? ==> r.error == ValidationError
    ensures r.Ok? ==> ValidCourse(r.value)
    ensures r.Ok? ==> r.value.id == id
    ensures r.Ok? ==> r.value.createdAt == (if b.createdAt.Some? then b.createdAt.value else now)
    ensures r.Ok? ==> r.value.bootcamp == b.bootcamp.value && r.value.user == b.user.value
    ensures r.Ok? ==> r.value.tuition == b.tuition.value
    ensures r.Ok? ==> r.value.scholarshipAvailable == (b.scholarshipAvailable == Some(true))
    ensures r.Ok? ==> r.value.title == Trim(b.title.value)
    ensures r.Ok? ==> r.value.description == b.description.value && r.value.weeks == b.weeks.value
    ensures r.Ok? ==> Some(r.value.minimumSkill) == ParseSkill(b.minimumSkill.value)
  {
    if !CreatableBody(b) then Err(ValidationError)
    else
      TrimCharacterised(b.title.value);
      Ok(Course(id, Trim(b.title.value), b.description.value, b.weeks.value, b.tuition.value,
                ParseSkill(b.minimumSkill.value).value,
                if b.scholarshipAvailable.Some? then b.scholarshipAvailable.value else false,
                Override(now, b.createdAt), b.bootcamp.value, b.user.value))
  }

  /** The update validators of `findByIdAndUpdate(..., { runValidators: true })`:
      only the paths the body sets are checked. */
  predicate UpdatableBody(b: CourseBody) {
    && (b.title.Some? ==> Trim(b.title.value) != "")
    && (b.description.Some? ==> b.description.value != "")
    && (b.weeks.Some? ==> b.weeks.value != "")
    && (b.minimumSkill.Some? ==> ParseSkill(b.minimumSkill.value).Some?)
  }

  function Override<T>(current: T, given: Option<T>): T {
    if given.Some? then given.value else current
  }

  /** The course with every field the body sets replaced; the `trim` setter
      applies to a new title. */
  function ApplyCourseBody(c: Course, b: CourseBody): Course {
    c.(title := if b.title.Some? then Trim(b.title.value) else c.title,
       description := Override(c.description, b.description),
       weeks := Override(c.weeks, b.weeks),
       tuition := Override(c.tuition, b.tuition),
       minimumSkill := if b.minimumSkill.Some? && ParseSkill(b.minimumSkill.value).Some?
                       then ParseSkill(b.minimumSkill.value).value else c.minimumSkill,
       scholarshipAvailable := Override(c.scholarshipAvailable, b.scholarshipAvailable),
       createdAt := Override(c.createdAt, b.createdAt),
       bootcamp := Override(c.bootcamp, b.bootcamp),
       user := Override(c.user, b.user))
  }

  /** The course after `findByIdAndUpdate(id, body, { new: true, runValidators: true })`:
      refused when a set path fails its validator; otherwise every field the body
      sets is replaced and every other field, the id included, is kept. */
  function UpdateCourseDoc(c: Course, b: CourseBody): (r: Result<Course>)
    ensures r.Ok? <==> UpdatableBody(b)
    ensures r.Err? ==> r.error == ValidationError
    ensures r.Ok? ==> r.value.id == c.id
    ensures r.Ok? ==> r.value.createdAt == (if b.createdAt.Some? then b.createdAt.value else c.createdAt)
    ensures r.Ok? && ValidCourse(c) ==> ValidCourse(r.value)
    ensures r.Ok? ==> r.value.title == (if b.title.Some? then Trim(b.title.value) else c.title)
    ensures r.Ok? ==> r.value.description == (if b.description.Some? then b.description.value else c.description)
    ensures r.Ok? ==> r.value.weeks == (if b.weeks.Some? then b.weeks.value else c.weeks)
    ensures r.Ok? ==> r.value.tuition == (if b.tuition.Some? then b.tuition.value else c.tuition)
    ensures r.Ok? ==>
      (Some(r.value.minimumSkill) ==
       if b.minimumSkill.Some? then ParseSkill(b.minimumSkill.value) else Some(c.minimumSkill))
    ensures r.Ok? ==>
      (r.value.scholarshipAvailable ==
       if b.scholarshipAvailable.Some? then b.scholarshipAvailable.value else c.scholarshipAvailable)
    ensures r.Ok? ==> r.value.bootcamp == (if b.bootcamp.Some? then b.bootcamp.value else c.bootcamp)
    ensures r.Ok? ==> r.value.user == (if b.user.Some? then b.user.value else c.user)
  {
    if !UpdatableBody(b) then Err(ValidationError)
    else
      var d := ApplyCourseBody(c, b);
      assert b.title.Some? ==> IsTrimmed(d.title) by {
        TrimCharacterised(Override("", b.title));
      }
      Ok(d)
  }

  /** An update with an empty body changes nothing. */
  lemma {:induction false} UpdateWithEmptyBody(c: Course)
    ensures UpdateCourseDoc(c, CourseBody(None, None, None, None, None, None, None, None, None)) == Ok(c)
  {
  }

  // ---------------------------------------------------------------------------
  // getAverageCost (lines 47-70)

  /** The `$match: { bootcamp: bootcampID }` stage projected on `tuition`: the
      tuitions of that bootcamp's courses, in store order. */
  function Tuitions(cs: seq<Course>, bootcamp: Id): (ts: seq<real>)
    ensures |ts| <= |cs|
    ensures |ts| == 0 <==> forall i :: 0 <= i < |cs| ==> cs[i].bootcamp != bootcamp
  {
    if cs == [] then []
    else (if cs[0].bootcamp == bootcamp then [cs[0].tuition] else []) + Tuitions(cs[1..], bootcamp)
  }

  /** The value `getAverageCost` writes: `Math.ceil(avg / 10) * 10` of the group's
      mean tuition; `None` when no course matches, where `obj[0]` is undefined and
      the resulting TypeError is caught and logged. */
  function AverageCost(cs: seq<Course>, bootcamp: Id): (r: Option<int>)
    ensures r.None? <==> forall i :: 0 <= i < |cs| ==> cs[i].bootcamp != bootcamp
    ensures r.Some? ==> r.value % 10 == 0
    ensures r.Some? ==> Mean(Tuitions(cs, bootcamp)) <= r.value as real < Mean(Tuitions(cs, bootcamp)) + 10.0
  {
    var ts := Tuitions(cs, bootcamp);
    if |ts| == 0 then None else Some(CeilToTen(Mean(ts)))
  }

  lemma {:induction false} TuitionsAppend(cs: seq<Course>, c: Course, bootcamp: Id)
    ensures Tuitions(cs + [c], bootcamp) ==
      Tuitions(cs, bootcamp) + (if c.bootcamp == bootcamp then [c.tuition] else [])
  {
    var tail: seq<real> := if c.bootcamp == bootcamp then [c.tuition] else [];
    if cs == [] {
      assert cs + [c] == [c];
      assert [c][1..] == [];
    } else {
      var cs' := cs + [c];
      var head: seq<real> := if cs[0].bootcamp == bootcamp then [cs[0].tuition] else [];
      assert cs'[0] == cs[0] && cs'[1..] == cs[1..] + [c];
      TuitionsAppend(cs[1..], c, bootcamp);
      assert Tuitions(cs', bootcamp) == head + (Tuitions(cs[1..], bootcamp) + tail);
      assert head + (Tuitions(cs[1..], bootcamp) + tail) == (head + Tuitions(cs[1..], bootcamp)) + tail;
    }
  }

  /** Only the courses of the bootcamp count: adding a course of another bootcamp
      leaves its average where it was. */
  lemma {:induction false} AverageCostIgnoresOthers(cs: seq<Course>, c: Course, bootcamp: Id)
    requires c.bootcamp != bootcamp
    ensures AverageCost(cs + [c], bootcamp) == AverageCost(cs, bootcamp)
  {
    TuitionsIgnoresOther(cs, c, bootcamp);
    AverageCostDependsOnTuitions(cs + [c], cs, bootcamp);
  }

  /** Appending another bootcamp's course leaves the tuition list alone. */
  lemma {:induction false} TuitionsIgnoresOther(cs: seq<Course>, c: Course, bootcamp: Id)
    requires c.bootcamp != bootcamp
    ensures Tuitions(cs + [c], bootcamp) == Tuitions(cs, bootcamp)
  {
    TuitionsAppend(cs, c, bootcamp);
    assert Tuitions(cs, bootcamp) + [] == Tuitions(cs, bootcamp);
  }

  /** The average cost is determined by the list of tuitions alone. */
  lemma {:induction false} AverageCostDependsOnTuitions(cs: seq<Course>, ds: seq<Course>, bootcamp: Id)
    requires Tuitions(cs, bootcamp) == Tuitions(ds, bootcamp)
    ensures AverageCost(cs, bootcamp) == AverageCost(ds, bootcamp)
  {
    AverageCostOfTuitions(cs, bootcamp);
    AverageCostOfTuitions(ds, bootcamp);
  }

  lemma {:induction false} AverageCostOfTuitions(cs: seq<Course>, bootcamp: Id)
    ensures var ts := Tuitions(cs, bootcamp);
      AverageCost(cs, bootcamp) == if |ts| == 0 then None else Some(CeilToTen(Mean(ts)))
  {
  }

  /** The recomputation after a save includes the saved course. */
  lemma {:induction false} AverageCostAfterSave(cs: seq<Course>, c: Course)
    ensures AverageCost(cs + [c], c.bootcamp) == Some(CeilToTen(Mean(Tuitions(cs, c.bootcamp) + [c.tuition])))
  {
    TuitionsAppend(cs, c, c.bootcamp);
  }

  /** Three courses costing 100, 200 and 300 give an average cost of 200. */
  lemma {:induction false} AverageCostExample(c: Course)
    ensures var cs := [c.(tuition := 100.0), c.(tuition := 200.0), c.(tuition := 300.0)];
            AverageCost(cs, c.bootcamp) == Some(200)
  {
    var cs := [c.(tuition := 100.0), c.(tuition := 200.0), c.(tuition := 300.0)];
    assert Tuitions(cs[2..], c.bootcamp) == [300.0] by {
      assert cs[2..][1..] == [];
    }
    assert Tuitions(cs[1..], c.bootcamp) == [200.0, 300.0] by {
      assert cs[1..][1..] == cs[2..];
    }
    assert Tuitions(cs, c.bootcamp) == [100.0, 200.0, 300.0];
    assert Sum([100.0, 200.0, 300.0]) == 600.0;
    assert (-(200.0 / 10.0)).Floor == -20;
  }
}
