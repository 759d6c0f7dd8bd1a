/** The student endpoints of the user service (StudentController.java),
    with HTTP reduced to a status code and a body. The student service the
    controller calls is modelled by a store of records keyed by id; the
    service's search and paging queries are not part of this model, so the
    endpoints that only pass their answer on take that answer as a
    parameter. */
module StudentEndpoints {
  import opened SeqUtil

  type Bytes = seq<bv8>

  datatype Student = Student(id: int, name: string, lastName: string, email: string, image: Option<Bytes>)

  /** The fields a request binds onto a student. */
  datatype StudentForm = StudentForm(name: string, lastName: string, email: string)

  datatype Body =
    | Errors(errors: seq<string>)
    | One(student: Student)
    | Image(contentType: string, bytes: Bytes)
    | Students(students: seq<Student>)
    | NoBody

  datatype Response = Response(status: int, body: Body)

  const Ok := 200
  const Created := 201
  const BadRequest := 400
  const NotFound := 404
  /** What an uncaught exception (a null dereference, an invalid page
      request) becomes. */
  const ServerError := 500

  const ImageJpeg := "image/jpeg"

  // ---------------------------------------------------------------------
  // The record merges

  /** The setters `update` applies: name, last name and email from the
      request; id and image stay. */
  function Copied(stored: Student, form: StudentForm): Student {
    stored.(name := form.name, lastName := form.lastName, email := form.email)
  }

  /** `updateWithImage`: the same, and the upload replaces the image when
      it is not empty. */
  function CopiedWithUpload(stored: Student, form: StudentForm, file: Bytes): Student {
    var s := Copied(stored, form);
    if |file| > 0 then s.(image := Some(file)) else s
  }

  /** The new student `createWithImage` saves, before the store gives it an
      id: the image is the upload when there is one. */
  function NewStudent(form: StudentForm, file: Bytes): Student {
    Student(0, form.name, form.lastName, form.email, if |file| > 0 then Some(file) else None)
  }

  /** What the two updates promise about the record they save. */
  lemma CopiedSpec(stored: Student, form: StudentForm, file: Bytes)
    ensures var s := CopiedWithUpload(stored, form, file);
      s.id == stored.id && s.name == form.name && s.lastName == form.lastName && s.email == form.email &&
      s.image == (if |file| > 0 then Some(file) else stored.image)
    ensures var s := Copied(stored, form);
      s.id == stored.id && s.image == stored.image &&
      s.name == form.name && s.lastName == form.lastName && s.email == form.email
  {
  }

  /** An empty upload makes `updateWithImage` the same as `update`. */
  lemma EmptyUploadIsUpdate(stored: Student, form: StudentForm)
    ensures CopiedWithUpload(stored, form, []) == Copied(stored, form)
  {
  }

  /** Repeating an update changes nothing more. */
  lemma CopiedIdempotent(stored: Student, form: StudentForm, file: Bytes)
    ensures CopiedWithUpload(CopiedWithUpload(stored, form, file), form, file) == CopiedWithUpload(stored, form, file)
    ensures Copied(Copied(stored, form), form) == Copied(stored, form)
  {
  }

  /** A later update wins over an earlier one; its image wins only when it
      uploads one. */
  lemma CopiedLastWins(stored: Student, f1: StudentForm, u1: Bytes, f2: StudentForm, u2: Bytes)
    ensures CopiedWithUpload(CopiedWithUpload(stored, f1, u1), f2, u2) ==
      if |u2| > 0 then CopiedWithUpload(stored, f2, u2) else CopiedWithUpload(stored, f2, u1)
  {
  }

  // ---------------------------------------------------------------------
  // PageRequest.of(page, size): a negative page or a size below one is
  // refused with an exception

  predicate ValidPageRequest(page: int, size: int) {
    page >= 0 && size >= 1
  }

  // ---------------------------------------------------------------------
  // The student service as seen by the controller

  class StudentStore {
    var students: map<int, Student>
    /** The id a new student gets. */
    var nextId: int

    predicate Valid()
      reads this
    {
      forall id :: id in students ==> students[id].id == id && id < nextId
    }

    constructor ()
      ensures Valid() && students == map[]
    {
      students := map[];
      nextId := 1;
    }

    /** findById(id): the stored student, or null (None). */
    method FindById(id: int) returns (r: Option<Student>)
      ensures r.Some? <==> id in students
      ensures r.Some? ==> r.value == students[id]
    {
      if id in students {
        r := Some(students[id]);
      } else {
        r := None;
      }
    }

    /** save(student) of a new student: stored under a fresh id. */
    method Save(s: Student) returns (saved: Student)
      requires Valid()
      modifies this
      ensures Valid()
      ensures saved == s.(id := old(nextId)) && old(nextId) !in old(students)
      ensures students == old(students)[saved.id := saved] && nextId == old(nextId) + 1
    {
      saved := s.(id := nextId);
      students := students[nextId := saved];
      nextId := nextId + 1;
    }

    /** update(student) of a stored student: its record is replaced. */
    method Update(s: Student) returns (saved: Student)
      requires Valid() && s.id in students
      modifies this
      ensures Valid()
      ensures saved == s && students == old(students)[s.id := s] && nextId == old(nextId)
    {
      students := students[s.id := s];
      saved := s;
    }
  }

  // ---------------------------------------------------------------------
  // The controller

  class StudentController {
    const store: StudentStore

    constructor (store: StudentStore)
      ensures this.store == store
    {
      this.store := store;
    }

    /** GET /students-by-course and GET /filter/{text}: both hand the
        service's answer on unchanged with 200; the ids or the text only
        reach the service query, which is the parameter found. */
    method ServiceList(found: seq<Student>) returns (r: Response)
      ensures r.status == Ok && r.body == Students(found)
    {
      r := Response(Ok, Students(found));
    }

    /** GET /page/{page}/{size} and /page/{page}/{size}/{text}: 200 with the
        service's page when the page request is valid, and the exception
        PageRequest.of raises otherwise. */
    method Index(page: int, size: int, pageContent: seq<Student>) returns (r: Response)
      ensures r.status == Ok <==> ValidPageRequest(page, size)
      ensures r.status == Ok ==> r.body == Students(pageContent)
      ensures r.status != Ok ==> r.status == ServerError
    {
      if !ValidPageRequest(page, size) {
        r := Response(ServerError, NoBody);
      } else {
        r := Response(Ok, Students(pageContent));
      }
    }

    /** PUT /{id}/update: 400 with the errors and nothing else when the
        request has validation errors; a null dereference when no student
        has the id; otherwise the stored student gets the request's name,
        last name and email, keeps its id and image, and is the body of a
        201. */
    method Update(id: int, form: StudentForm, errors: seq<string>) returns (r: Response)
      requires store.Valid()
      modifies store
      ensures store.Valid()
      ensures errors != [] ==> r == Response(BadRequest, Errors(errors)) && store.students == old(store.students)
      ensures errors == [] && id !in old(store.students) ==> r.status == ServerError && store.students == old(store.students)
      ensures errors == [] && id in old(store.students) ==>
        var s := Copied(old(store.students)[id], form);
        r == Response(Created, One(s)) && store.students == old(store.students)[id := s]
    {
      if errors != [] {
        r := Response(BadRequest, Errors(errors));
        return;
      }
      var found := store.FindById(id);
      if found.None? {
        r := Response(ServerError, NoBody);
        return;
      }
      var studentBD := found.value;
      studentBD := studentBD.(name := form.name);
      studentBD := studentBD.(lastName := form.lastName);
      studentBD := studentBD.(email := form.email);
      var saved := store.Update(studentBD);
      r := Response(Created, One(saved));
    }

    /** POST /create-with-image: 400 with the errors when the request has
        validation errors; otherwise a new student with the request's
        fields, and the upload as image when it is not empty, is stored
        under a fresh id and is the body of a 201. */
    method CreateWithImage(form: StudentForm, errors: seq<string>, file: Bytes) returns (r: Response)
      requires store.Valid()
      modifies store
      ensures store.Valid()
      ensures errors != [] ==> r == Response(BadRequest, Errors(errors)) && store.students == old(store.students)
      ensures errors == [] ==>
        var s := NewStudent(form, file).(id := old(store.nextId));
        r == Response(Created, One(s)) && store.students == old(store.students)[s.id := s] &&
        s.id !in old(store.students)
    {
      if errors != [] {
        r := Response(BadRequest, Errors(errors));
        return;
      }
      var student := Student(0, form.name, form.lastName, form.email, None);
      if |file| > 0 {
        student := student.(image := Some(file));
      }
      var saved := store.Save(student);
      r := Response(Created, One(saved));
    }

    /** PUT /{id}/update-with-image: as Update, and a non-empty upload
        replaces the stored image while an empty one keeps it. */
    method UpdateWithImage(id: int, form: StudentForm, errors: seq<string>, file: Bytes) returns (r: Response)
      requires store.Valid()
      modifies store
      ensures store.Valid()
      ensures errors != [] ==> r == Response(BadRequest, Errors(errors)) && store.students == old(store.students)
      ensures errors == [] && id !in old(store.students) ==> r.status == ServerError && store.students == old(store.students)
      ensures errors == [] && id in old(store.students) ==>
        var s := CopiedWithUpload(old(store.students)[id], form, file);
        r == Response(Created, One(s)) && store.students == old(store.students)[id := s]
    {
      if errors != [] {
        r := Response(BadRequest, Errors(errors));
        return;
      }
      var found := store.FindById(id);
      if found.None? {
        r := Response(ServerError, NoBody);
        return;
      }
      var studentBD := found.value;
      studentBD := studentBD.(name := form.name);
      studentBD := studentBD.(lastName := form.lastName);
      studentBD := studentBD.(email := form.email);
      if |file| > 0 {
        studentBD := studentBD.(image := Some(file));
      }
      var saved := store.Update(studentBD);
      r := Response(Created, One(saved));
    }

    /** GET /{id}/uploads/image: 404 when the student has no image, 200
        with content type image/jpeg and exactly the stored bytes when it
        has one, and a null dereference when no student has the id. */
    method ViewImage(id: int) returns (r: Response)
      ensures id !in store.students ==> r.status == ServerError
      ensures id in store.students && store.students[id].image.None? ==> r == Response(NotFound, NoBody)
      ensures id in store.students && store.students[id].image.Some? ==>
        r == Response(Ok, Image(ImageJpeg, store.students[id].image.value))
    {
      var found := store.FindById(id);
      if found.None? {
        r := Response(ServerError, NoBody);
        return;
      }
      var studentBD := found.value;
      if studentBD.image.None? {
        r := Response(NotFound, NoBody);
        return;
      }
      r := Response(Ok, Image(ImageJpeg, studentBD.image.value));
    }
  }

  /** An image uploaded with createWithImage is what viewImage serves for
      the new id; without an upload viewImage answers 404. */
  method CreateThenView(store: StudentStore, form: StudentForm, file: Bytes) returns (created: Response, viewed: Response)
    requires store.Valid()
    modifies store
    ensures created.status == Created && created.body.One?
    ensures |file| > 0 ==> viewed == Response(Ok, Image(ImageJpeg, file))
    ensures |file| == 0 ==> viewed == Response(NotFound, NoBody)
  {
    var controller := new StudentController(store);
    created := controller.CreateWithImage(form, [], file);
    viewed := controller.ViewImage(created.body.student.id);
  }
}
