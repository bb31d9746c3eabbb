/**
 * The user_courses table: one row per course grant. Only the attributes in
 * UserCourse's `$fillable` are stored (user, course, order); a
 * `subscription_id` passed to `create` is discarded.
 */
module UserCourses {
  import opened Basics

  datatype UserCourse = UserCourse(userId: UserId, courseId: CourseId, orderId: Option<OrderId>)

  /** Some row grants the course to the user, whatever its order. */
  predicate HasCourse(rows: seq<UserCourse>, user: UserId, course: CourseId)
  {
    exists j :: 0 <= j < |rows| && rows[j].userId == user && rows[j].courseId == course
  }

  /** Number of rows for (user, course). */
  function RowsFor(rows: seq<UserCourse>, user: UserId, course: CourseId): nat
  {
    if rows == [] then 0
    else
      var last := rows[|rows| - 1];
      RowsFor(rows[..|rows| - 1], user, course) + (if last.userId == user && last.courseId == course then 1 else 0)
  }

  /** `UserCourse::firstOrCreate($attributes)`: add the row unless an identical one exists. */
  function AfterFirstOrCreate(rows: seq<UserCourse>, row: UserCourse): (r: seq<UserCourse>)
    ensures row in r && rows <= r && |r| <= |rows| + 1
    ensures row in rows ==> r == rows
  {
    if row in rows then rows else rows + [row]
  }

  /**
   * The subscription grant: look the (user, course) pair up and create a
   * row without an order only when none exists.
   */
  function AfterCreateIfAbsent(rows: seq<UserCourse>, user: UserId, course: CourseId): (r: seq<UserCourse>)
    ensures HasCourse(r, user, course) && rows <= r && |r| <= |rows| + 1
    ensures RowsFor(r, user, course) == if HasCourse(rows, user, course) then RowsFor(rows, user, course) else 1
  {
    if HasCourse(rows, user, course) then rows
    else
      var r := rows + [UserCourse(user, course, None)];
      assert r[..|r| - 1] == rows;
      assert r[|r| - 1].userId == user && r[|r| - 1].courseId == course;
      NoRowsFor(rows, user, course);
      r
  }

  lemma {:induction false} NoRowsFor(rows: seq<UserCourse>, user: UserId, course: CourseId)
    requires !HasCourse(rows, user, course)
    ensures RowsFor(rows, user, course) == 0
  {
    if rows != [] {
      var init := rows[..|rows| - 1];
      NoRowsFor(init, user, course);
    }
  }

  /** Having the course and having a row counted for it are the same thing. */
  lemma {:induction false} HasCourseIffRows(rows: seq<UserCourse>, user: UserId, course: CourseId)
    ensures HasCourse(rows, user, course) <==> RowsFor(rows, user, course) > 0
  {
    if !HasCourse(rows, user, course) {
      NoRowsFor(rows, user, course);
    } else if rows != [] {
      var init := rows[..|rows| - 1];
      var last := rows[|rows| - 1];
      if !(last.userId == user && last.courseId == course) {
        var j :| 0 <= j < |rows| && rows[j].userId == user && rows[j].courseId == course;
        assert j < |rows| - 1 && init[j] == rows[j];
        HasCourseIffRows(init, user, course);
      }
    }
  }

  /** The subscription grant of one course leaves every other pair's rows alone. */
  lemma CreateIfAbsentOthers(rows: seq<UserCourse>, user: UserId, course: CourseId, u: UserId, c: CourseId)
    requires u != user || c != course
    ensures RowsFor(AfterCreateIfAbsent(rows, user, course), u, c) == RowsFor(rows, u, c)
  {
    var r := AfterCreateIfAbsent(rows, user, course);
    if r != rows {
      assert r[..|r| - 1] == rows;
    }
  }

  class UserCourseTable {
    var rows: seq<UserCourse>

    constructor (rows: seq<UserCourse>)
      ensures this.rows == rows
    {
      this.rows := rows;
    }

    method FirstOrCreate(row: UserCourse)
      modifies this
      ensures rows == AfterFirstOrCreate(old(rows), row)
    {
      if row !in rows {
        rows := rows + [row];
      }
    }

    method CreateIfAbsent(user: UserId, course: CourseId)
      modifies this
      ensures rows == AfterCreateIfAbsent(old(rows), user, course)
    {
      var i := 0;
      while i < |rows|
        invariant 0 <= i <= |rows|
        invariant forall j :: 0 <= j < i ==> !(rows[j].userId == user && rows[j].courseId == course)
      {
        if rows[i].userId == user && rows[i].courseId == course {
          return;
        }
        i := i + 1;
      }
      rows := rows + [UserCourse(user, course, None)];
    }
  }
}
