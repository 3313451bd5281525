/** The two role-checked course handlers of `src/routes/courses.js`. */
module Courses {
  import opened Common
  import opened Session
  import RoleGate

  /** A document id (a MongoDB ObjectId in the source). */
  type CourseId = nat

  /** The fields of the Course schema. `price` is a JavaScript number,
      taken here as a real. */
  datatype Course = Course(
    id: CourseId,
    title: string,
    description: string,
    instructor: UserId,
    duration: string,
    price: real,
    students: seq<UserId>)

  predicate NoDuplicates(s: seq<UserId>) {
    forall i, j | 0 <= i < j < |s| :: s[i] != s[j]
  }

  class CourseStore {
    var courses: map<CourseId, Course>
    /** Stands for the fresh ObjectId the database assigns to a new document. */
    var nextId: CourseId

    /** Every course is stored under its own id, ids below `nextId` are the
        ones handed out, and no student is enrolled twice. */
    predicate Valid()
      reads this
    {
      forall id | id in courses :: courses[id].id == id && id < nextId && NoDuplicates(courses[id].students)
    }

    constructor ()
      ensures Valid() && courses == map[] && nextId == 0
    {
      courses, nextId := map[], 0;
    }

    /** POST /courses, behind the authentication middleware; `caller` is
        the session claims it attached. Only instructors may create. */
    method Create(caller: Claims, title: string, description: string, duration: string, price: real)
      returns (r: Result<Course>)
      requires Valid()
      modifies this
      ensures Valid()
      ensures r.Err? <==> RoleGate.Gate(INSTRUCTOR, Some(caller)).Reject?
      ensures caller.role != INSTRUCTOR ==>
        r == Err(403, "Forbidden") && courses == old(courses) && nextId == old(nextId)
      ensures caller.role == INSTRUCTOR ==>
        && r == Ok(Course(old(nextId), title, description, caller.id, duration, price, []))
        && old(nextId) !in old(courses)
        && courses == old(courses)[old(nextId) := r.value]
        && nextId == old(nextId) + 1
    {
      if caller.role != INSTRUCTOR {
        return Err(403, "Forbidden");
      }
      var course := Course(nextId, title, description, caller.id, duration, price, []);
      courses := courses[nextId := course];
      nextId := nextId + 1;
      r := Ok(course);
    }

    /** POST /courses/:courseId/enroll, behind the authentication
        middleware. There is no role check: any authenticated caller enrolls. */
    method Enroll(caller: Claims, courseId: CourseId) returns (r: Result<Course>)
      requires Valid()
      modifies this
      ensures Valid() && nextId == old(nextId)
      ensures courseId !in old(courses) ==> r == Err(404, "Course not found") && courses == old(courses)
      ensures courseId in old(courses) ==>
        var before := old(courses)[courseId].students;
        && r.Ok?
        && r.value == old(courses)[courseId].(students := if caller.id in before then before else before + [caller.id])
        && courses == old(courses)[courseId := r.value]
      // the caller is enrolled afterwards, and already enrolled students keep their places
      ensures r.Ok? ==>
        && caller.id in r.value.students
        && old(courses)[courseId].students <= r.value.students
        && |r.value.students| <= |old(courses)[courseId].students| + 1
    {
      if courseId !in courses {
        return Err(404, "Course not found");
      }
      var course := courses[courseId];
      if caller.id !in course.students {
        course := course.(students := course.students + [caller.id]);
        courses := courses[courseId := course];
      }
      r := Ok(course);
    }
  }
}
