/** The course service (CourseServiceImpl.java): each operation hands its
    request to the course repository and returns that result unchanged. */
module CourseServices {
  import opened SeqUtil
  import opened CourseStore

  class CourseService {
    const repository: CourseRepository

    constructor (repository: CourseRepository)
      ensures this.repository == repository
    {
      this.repository := repository;
    }

    /** findAll(): exactly the stored courses. */
    method FindAll() returns (r: seq<Course>)
      ensures r == repository.courses
    {
      r := repository.FindAll();
    }

    /** findById(id): the stored course with that id, or null (None), with
        no error, when there is none. */
    method FindById(id: int) returns (r: Option<Course>)
      ensures r.Some? ==> r.value in repository.courses && r.value.id == id
      ensures r.None? <==> forall i :: 0 <= i < |repository.courses| ==> repository.courses[i].id != id
      ensures r == Lookup(repository.courses, id)
    {
      r := repository.FindById(id);
    }

    /** save(course): the saved course keeps the name, description and
        associations it was given, and is found by its id afterwards. A
        course whose id is stored replaces the stored one in place and
        keeps its id; any other gets the next id, no stored course had it,
        and is appended. No other stored course changes. */
    method Save(input: CourseInput) returns (saved: Course)
      requires repository.Valid()
      modifies repository
      ensures repository.Valid()
      ensures saved.name == input.name && saved.description == input.description
      ensures saved.courseStudents == input.courseStudents
      ensures input.id.Some? && Lookup(old(repository.courses), input.id.value).Some? ==>
        && saved.id == input.id.value
        && repository.courses == Replace(old(repository.courses), saved)
        && repository.nextId == old(repository.nextId)
      ensures !(input.id.Some? && Lookup(old(repository.courses), input.id.value).Some?) ==>
        && saved.id == old(repository.nextId)
        && repository.courses == old(repository.courses) + [saved]
        && repository.nextId == old(repository.nextId) + 1
      ensures Lookup(repository.courses, saved.id) == Some(saved)
      ensures input.id.None? ==> Lookup(old(repository.courses), saved.id).None?
    {
      saved := repository.Save(input);
    }

    /** findCourseByStudentId(id): the repository's answer; the store is
        not changed. */
    method FindCourseByStudentId(studentId: int) returns (r: SingleResult)
      ensures r == ByStudent(repository.courses, studentId)
      ensures r.Found? ==> r.course in repository.courses && Enrolled(r.course, studentId)
    {
      r := repository.FindCourseByStudentId(studentId);
      ByStudentSpec(repository.courses, studentId);
    }

    /** deleteCourseStudentById(studentId): no course is associated with
        the student afterwards, and every stored course is still there. */
    method DeleteCourseStudentById(studentId: int)
      requires repository.Valid()
      modifies repository
      ensures repository.Valid()
      ensures repository.courses == WithoutStudent(old(repository.courses), studentId)
      ensures ByStudent(repository.courses, studentId) == NotFound
      ensures forall id :: Lookup(old(repository.courses), id).Some? ==> Lookup(repository.courses, id).Some?
    {
      ghost var before := repository.courses;
      repository.DeleteCourseStudentById(studentId);
      WithoutStudentNone(before, studentId);
      forall id | Lookup(before, id).Some? ensures Lookup(repository.courses, id).Some? {
        WithoutStudentLookup(before, studentId, id);
      }
    }

    /** findByNameOrDescriptionWithPageable(text, pageable): the courses the
        query selects, in store order, before paging; the store is not
        changed. */
    method FindByNameOrDescription(text: string) returns (r: seq<Course>)
      ensures r == Search(repository.courses, text)
    {
      r := repository.FindByNameOrDescription(text);
    }
  }
}
