/** The course store of the course service (CourseRepository.java): the
    stored courses with their student associations, the two SELECT queries
    as functions over them, and `save` and the bulk DELETE of associations
    as methods on a repository object. Ids are the entities' Long ids. */
module CourseStore {
  import opened SeqUtil
  import opened PyText

  /** A CourseStudent row: the link of a course to one student id. */
  datatype CourseStudent = CourseStudent(studentId: int)

  datatype Course = Course(id: int, name: string, description: string, courseStudents: seq<CourseStudent>)

  /** A course as handed to `save`: without an id when it is new. */
  datatype CourseInput = CourseInput(id: Option<int>, name: string, description: string, courseStudents: seq<CourseStudent>)

  /** The stored courses in id order, every id below the next one the store
      generates. Ordered ids are in particular distinct. */
  predicate WellKeyed(cs: seq<Course>, nextId: int) {
    (forall i, j :: 0 <= i < j < |cs| ==> cs[i].id < cs[j].id) &&
    (forall i :: 0 <= i < |cs| ==> cs[i].id < nextId)
  }

  // ---------------------------------------------------------------------
  // findById: the stored course with that id, or null

  function Lookup(cs: seq<Course>, id: int): (r: Option<Course>)
    ensures r.Some? ==> r.value in cs && r.value.id == id
    ensures r.None? <==> forall i :: 0 <= i < |cs| ==> cs[i].id != id
  {
    if cs == [] then None
    else if cs[0].id == id then Some(cs[0])
    else Lookup(cs[1..], id)
  }

  /** A course appended with an id above all others is found by it. */
  lemma {:induction false} LookupAppendFresh(cs: seq<Course>, c: Course)
    requires forall i :: 0 <= i < |cs| ==> cs[i].id < c.id
    ensures Lookup(cs + [c], c.id) == Some(c)
  {
    if cs != [] {
      assert (cs + [c])[1..] == cs[1..] + [c];
      LookupAppendFresh(cs[1..], c);
    }
  }

  /** Appending a course leaves the lookup of every other id alone. */
  lemma {:induction false} LookupAppendOther(cs: seq<Course>, c: Course, id: int)
    requires id != c.id
    ensures Lookup(cs + [c], id) == Lookup(cs, id)
  {
    if cs != [] {
      assert (cs + [c])[1..] == cs[1..] + [c];
      LookupAppendOther(cs[1..], c, id);
    }
  }

  /** `save` of a course whose id is stored: the stored one is replaced. */
  function Replace(cs: seq<Course>, c: Course): (r: seq<Course>)
    ensures |r| == |cs|
  {
    Map(cs, (x: Course) => if x.id == c.id then c else x)
  }

  /** After the replacement the id yields the new course, every other id
      what it yielded before, and the store stays well keyed. */
  lemma {:induction false} LookupReplace(cs: seq<Course>, c: Course, id: int)
    ensures Lookup(Replace(cs, c), id) == if id == c.id && Lookup(cs, id).Some? then Some(c) else Lookup(cs, id)
  {
    if cs != [] {
      assert Replace(cs, c)[1..] == Replace(cs[1..], c);
      LookupReplace(cs[1..], c, id);
    }
  }

  lemma ReplaceWellKeyed(cs: seq<Course>, c: Course, nextId: int)
    requires WellKeyed(cs, nextId)
    ensures WellKeyed(Replace(cs, c), nextId)
  {
    var r := Replace(cs, c);
    assert forall i :: 0 <= i < |cs| ==> r[i].id == cs[i].id;
  }

  // ---------------------------------------------------------------------
  // findCourseByStudentId: a single-result query over
  // `SELECT c FROM Course c JOIN c.courseStudents cs WHERE cs.studentId = :studentId`

  /** What a single-result query yields: null for no row, the course when
      every row is that one course, and an exception for rows of two or
      more courses. */
  datatype SingleResult = NotFound | Found(course: Course) | NonUnique

  predicate Enrolled(c: Course, studentId: int) {
    CourseStudent(studentId) in c.courseStudents
  }

  /** The courses the join yields, each once. */
  function WithStudent(cs: seq<Course>, studentId: int): seq<Course> {
    Filter(cs, (c: Course) => Enrolled(c, studentId))
  }

  function ByStudent(cs: seq<Course>, studentId: int): SingleResult {
    var hits := WithStudent(cs, studentId);
    if |hits| == 0 then NotFound
    else if |hits| == 1 then Found(hits[0])
    else NonUnique
  }

  /** cs[i] is the only stored course with an association with the student. */
  predicate OnlyEnrolled(cs: seq<Course>, i: nat, studentId: int)
    requires i < |cs|
  {
    Enrolled(cs[i], studentId) && forall j :: 0 <= j < |cs| && j != i ==> !Enrolled(cs[j], studentId)
  }

  /** The query finds the course that has an association with the student
      when there is exactly one such course, null when there is none, and
      fails as non-unique when two or more courses have one. */
  lemma ByStudentSpec(cs: seq<Course>, studentId: int)
    ensures ByStudent(cs, studentId).Found? ==>
      ByStudent(cs, studentId).course in cs && Enrolled(ByStudent(cs, studentId).course, studentId)
    ensures ByStudent(cs, studentId).NotFound? <==> forall c :: c in cs ==> !Enrolled(c, studentId)
    ensures forall i :: 0 <= i < |cs| && OnlyEnrolled(cs, i, studentId) ==>
      ByStudent(cs, studentId) == Found(cs[i])
    ensures ByStudent(cs, studentId).NonUnique? <==>
      exists i, j :: 0 <= i < j < |cs| && Enrolled(cs[i], studentId) && Enrolled(cs[j], studentId)
  {
    var p := (c: Course) => Enrolled(c, studentId);
    var hits := WithStudent(cs, studentId);
    if hits != [] {
      FilterIn(cs, p, hits[0]);
    } else {
      forall c | c in cs ensures !Enrolled(c, studentId) {
        FilterIn(cs, p, c);
      }
    }
    forall i | 0 <= i < |cs| && OnlyEnrolled(cs, i, studentId)
      ensures ByStudent(cs, studentId) == Found(cs[i])
    {
      FilterSingle(cs, p, i);
    }
    FilterTwo(cs, p);
  }

  // ---------------------------------------------------------------------
  // findByNameOrDescriptionWithPageable:
  // `UPPER(c.name) LIKE UPPER(CONCAT('%', :text, '%')) OR
  //  UPPER(c.description) LIKE UPPER(CONCAT('%', :text, '%'))`

  /** JPQL LIKE: `%` matches any run of characters, `_` any one character,
      every other character itself; there is no escape character. */
  predicate Like(s: string, p: string)
    decreases |s| + |p|
  {
    if p == [] then s == []
    else if p[0] == '%' then Like(s, p[1..]) || (s != [] && Like(s[1..], p))
    else s != [] && (p[0] == '_' || s[0] == p[0]) && Like(s[1..], p[1..])
  }

  predicate MatchesText(c: Course, text: string) {
    var pattern := Upper("%" + text + "%");
    Like(Upper(c.name), pattern) || Like(Upper(c.description), pattern)
  }

  /** The courses the query selects, in store order (the page is a slice
      of these). */
  function Search(cs: seq<Course>, text: string): seq<Course> {
    Filter(cs, (c: Course) => MatchesText(c, text))
  }

  /** Neither LIKE wildcard occurs in t. */
  predicate NoWildcard(t: string) {
    forall k :: 0 <= k < |t| ==> t[k] != '%' && t[k] != '_'
  }

  lemma {:induction false} LikeAnything(s: string)
    ensures Like(s, "%")
  {
    if s != [] {
      LikeAnything(s[1..]);
    }
  }

  /** `q%` matches exactly the strings starting with q. */
  lemma {:induction false} LikePrefix(s: string, q: string)
    requires NoWildcard(q)
    ensures Like(s, q + "%") <==> StartsWith(s, q)
  {
    if q == [] {
      assert q + "%" == "%";
      LikeAnything(s);
    } else {
      assert (q + "%")[1..] == q[1..] + "%";
      if s != [] {
        LikePrefix(s[1..], q[1..]);
        assert StartsWith(s, q) <==> s[0] == q[0] && StartsWith(s[1..], q[1..]) by {
          if |q| <= |s| {
            assert s[..|q|] == [s[0]] + s[1..][..|q| - 1];
            assert q == [q[0]] + q[1..];
          }
        }
      }
    }
  }

  /** `%q%` matches exactly the strings containing q. */
  lemma {:induction false} LikeContains(s: string, q: string)
    requires NoWildcard(q)
    ensures Like(s, "%" + q + "%") <==> Contains(s, q)
  {
    var p := "%" + q + "%";
    assert p[1..] == q + "%";
    LikePrefix(s, q);
    if s != [] {
      LikeContains(s[1..], q);
    }
  }

  lemma UpperNoWildcard(t: string)
    requires NoWildcard(t)
    ensures NoWildcard(Upper(t))
  {
  }

  /** For text without wildcards the query is the case-insensitive
      substring test on name or description, and the result keeps store
      order. */
  lemma SearchSpec(cs: seq<Course>, text: string, c: Course)
    requires NoWildcard(text)
    ensures c in Search(cs, text) <==>
      c in cs && (Contains(Upper(c.name), Upper(text)) || Contains(Upper(c.description), Upper(text)))
  {
    var u := Upper(text);
    UpperNoWildcard(text);
    assert Upper("%" + text + "%") == "%" + u + "%";
    LikeContains(Upper(c.name), u);
    LikeContains(Upper(c.description), u);
    FilterIn(cs, (x: Course) => MatchesText(x, text), c);
  }

  /** The search of "math" finds a course named "Math". */
  lemma SearchMath()
    ensures MatchesText(Course(1, "Math", "Mathematics Course", []), "math")
  {
    assert Upper("Math") == "MATH";
    assert Upper("%" + "math" + "%") == "%" + "MATH" + "%";
    LikeContains("MATH", "MATH");
    assert StartsWith("MATH", "MATH");
  }

  /** Under LIKE, `_` in the text matches any character: "a_c" finds a
      course named "abc", which does not contain "A_C". */
  lemma UnderscoreIsWildcard()
    ensures MatchesText(Course(1, "abc", "", []), "a_c")
    ensures !Contains(Upper("abc"), Upper("a_c"))
  {
    assert Upper("abc") == "ABC";
    assert Upper("a_c") == "A_C";
    assert Upper("%" + "a_c" + "%") == "%A_C%";
    assert Like("", "");
    assert Like("", "%");
    assert Like("ABC", "A_C%");
    assert !StartsWith("BC", "A_C") && !StartsWith("C", "A_C") && !StartsWith("", "A_C");
    assert !Contains("C", "A_C");
    assert !Contains("BC", "A_C");
  }

  // ---------------------------------------------------------------------
  // deleteCourseStudentById: `DELETE FROM CourseStudent cs WHERE cs.studentId = :studentId`

  function DropStudent(c: Course, studentId: int): Course {
    c.(courseStudents := Filter(c.courseStudents, (a: CourseStudent) => a.studentId != studentId))
  }

  function WithoutStudent(cs: seq<Course>, studentId: int): seq<Course> {
    Map(cs, (c: Course) => DropStudent(c, studentId))
  }

  /** Every course stays, with its id, name and description, and keeps
      exactly its associations with other student ids. */
  lemma WithoutStudentSpec(cs: seq<Course>, studentId: int)
    ensures |WithoutStudent(cs, studentId)| == |cs|
    ensures forall i :: 0 <= i < |cs| ==>
      var (c, d) := (cs[i], WithoutStudent(cs, studentId)[i]);
      d.id == c.id && d.name == c.name && d.description == c.description &&
      forall a :: a in d.courseStudents <==> a in c.courseStudents && a.studentId != studentId
  {
    forall i, a | 0 <= i < |cs|
      ensures a in WithoutStudent(cs, studentId)[i].courseStudents <==>
              a in cs[i].courseStudents && a.studentId != studentId
    {
      FilterIn(cs[i].courseStudents, (x: CourseStudent) => x.studentId != studentId, a);
    }
  }

  /** Afterwards no course has an association with the student. */
  lemma WithoutStudentNone(cs: seq<Course>, studentId: int)
    ensures ByStudent(WithoutStudent(cs, studentId), studentId) == NotFound
  {
    var r := WithoutStudent(cs, studentId);
    WithoutStudentSpec(cs, studentId);
    ByStudentSpec(r, studentId);
  }

  /** A student without associations changes nothing; so a second delete
      changes nothing either. */
  lemma WithoutStudentNoop(cs: seq<Course>, studentId: int)
    requires forall c :: c in cs ==> !Enrolled(c, studentId)
    ensures WithoutStudent(cs, studentId) == cs
  {
    forall i | 0 <= i < |cs| ensures DropStudent(cs[i], studentId) == cs[i] {
      var c := cs[i];
      assert c in cs;
      forall k | 0 <= k < |c.courseStudents| ensures c.courseStudents[k].studentId != studentId {
        assert c.courseStudents[k] in c.courseStudents;
        assert c.courseStudents[k] == CourseStudent(c.courseStudents[k].studentId);
      }
      FilterAll(c.courseStudents, (a: CourseStudent) => a.studentId != studentId);
    }
  }

  lemma WithoutStudentTwice(cs: seq<Course>, studentId: int)
    ensures WithoutStudent(WithoutStudent(cs, studentId), studentId) == WithoutStudent(cs, studentId)
  {
    var r := WithoutStudent(cs, studentId);
    WithoutStudentNone(cs, studentId);
    ByStudentSpec(r, studentId);
    WithoutStudentNoop(r, studentId);
  }

  /** Every course is still found by its id. */
  lemma {:induction false} WithoutStudentLookup(cs: seq<Course>, studentId: int, id: int)
    ensures Lookup(WithoutStudent(cs, studentId), id).Some? <==> Lookup(cs, id).Some?
  {
    if cs != [] {
      assert WithoutStudent(cs, studentId)[1..] == WithoutStudent(cs[1..], studentId);
      WithoutStudentLookup(cs[1..], studentId, id);
    }
  }

  // ---------------------------------------------------------------------
  // The repository

  class CourseRepository {
    var courses: seq<Course>
    /** The id the store generates next. */
    var nextId: int

    predicate Valid()
      reads this
    {
      WellKeyed(courses, nextId)
    }

    constructor ()
      ensures Valid() && courses == []
    {
      courses := [];
      nextId := 1;
    }

    /** findAll(): every stored course. */
    method FindAll() returns (r: seq<Course>)
      ensures r == courses
    {
      r := courses;
    }

    /** findById(id), with Optional.empty as None. */
    method FindById(id: int) returns (r: Option<Course>)
      ensures r.Some? ==> r.value in courses && r.value.id == id
      ensures r.None? <==> forall i :: 0 <= i < |courses| ==> courses[i].id != id
      ensures r == Lookup(courses, id)
    {
      r := Lookup(courses, id);
    }

    /** save(course): a course without a stored id gets the next id and is
        appended; one with a stored id replaces the stored one. Either way
        the saved course is then found by its id. */
    method Save(input: CourseInput) returns (saved: Course)
      requires Valid()
      modifies this
      ensures Valid()
      ensures saved.name == input.name && saved.description == input.description
      ensures saved.courseStudents == input.courseStudents
      ensures input.id.Some? && Lookup(old(courses), input.id.value).Some? ==>
        saved.id == input.id.value && courses == Replace(old(courses), saved) && nextId == old(nextId)
      ensures !(input.id.Some? && Lookup(old(courses), input.id.value).Some?) ==>
        saved.id == old(nextId) && courses == old(courses) + [saved] && nextId == old(nextId) + 1
      ensures Lookup(courses, saved.id) == Some(saved)
    {
      if input.id.Some? && Lookup(courses, input.id.value).Some? {
        saved := Course(input.id.value, input.name, input.description, input.courseStudents);
        LookupReplace(courses, saved, saved.id);
        ReplaceWellKeyed(courses, saved, nextId);
        courses := Replace(courses, saved);
      } else {
        saved := Course(nextId, input.name, input.description, input.courseStudents);
        LookupAppendFresh(courses, saved);
        courses := courses + [saved];
        nextId := nextId + 1;
      }
    }

    method FindCourseByStudentId(studentId: int) returns (r: SingleResult)
      ensures r == ByStudent(courses, studentId)
    {
      r := ByStudent(courses, studentId);
    }

    method FindByNameOrDescription(text: string) returns (r: seq<Course>)
      ensures r == Search(courses, text)
    {
      r := Search(courses, text);
    }

    /** deleteCourseStudentById(studentId): the associations with the
        student go, from every course; nothing else changes. */
    method DeleteCourseStudentById(studentId: int)
      requires Valid()
      modifies this
      ensures Valid()
      ensures courses == WithoutStudent(old(courses), studentId) && nextId == old(nextId)
    {
      WithoutStudentSpec(courses, studentId);
      courses := WithoutStudent(courses, studentId);
    }
  }
}
