/** `classAPI.searchStudents(query)` (vis-core-fe/src/services/api.js, lines 336-359) once
    the class list and every class's student list have been fetched: flatten the lists in
    class order, tag each student with its class's name, keep the students whose id or
    name contains the trimmed, lower-cased query, and return at most ten. */
module StudentSearch {
  import opened Wrappers
  import Text

  const MaxResults: nat := 10

  datatype ClassInfo = ClassInfo(className: string)

  /** A student record as the students endpoint returns it; `None` is a missing field. */
  datatype Student = Student(studentId: Option<string>, studentName: Option<string>, className: Option<string>)

  /** `{ ...student, class_name }` for every student of one class. */
  function Tag(students: seq<Student>, className: string): (r: seq<Student>)
    ensures |r| == |students|
    ensures forall j :: 0 <= j < |students| ==> r[j] == students[j].(className := Some(className))
  {
    seq(|students|, j requires 0 <= j < |students| => students[j].(className := Some(className)))
  }

  /** The `flatMap` over the per-class results; a failed fetch (`None`) contributes nothing. */
  function Flatten(classes: seq<ClassInfo>, fetched: seq<Option<seq<Student>>>): seq<Student>
    requires |fetched| == |classes|
  {
    if |classes| == 0 then []
    else
      (match fetched[0] case None => [] case Some(students) => Tag(students, classes[0].className))
      + Flatten(classes[1..], fetched[1..])
  }

  /** `query.toLowerCase().trim()`. */
  function NormalizeQuery(query: string): string
  {
    Text.JsTrim(Text.Lower(query))
  }

  /** `student.student_id?.toLowerCase().includes(q) || student.student_name?.toLowerCase().includes(q)`. */
  predicate Matches(s: Student, q: string)
  {
    (s.studentId.Some? && Text.Contains(Text.Lower(s.studentId.value), q))
    || (s.studentName.Some? && Text.Contains(Text.Lower(s.studentName.value), q))
  }

  /** The students of `all` that match `q`, in their order. */
  function FilterMatches(all: seq<Student>, q: string): (r: seq<Student>)
    ensures |r| <= |all|
    ensures forall s :: s in r <==> s in all && Matches(s, q)
  {
    if |all| == 0 then []
    else (if Matches(all[0], q) then [all[0]] else []) + FilterMatches(all[1..], q)
  }

  /** `searchStudents(query)`: at most ten students, each a tagged student of some class
      that matches the query, taken from the front of the matching students in class order
      then student order; fewer than ten only when no other student matches. */
  function SearchStudents(classes: seq<ClassInfo>, fetched: seq<Option<seq<Student>>>, query: string): (r: seq<Student>)
    requires |fetched| == |classes|
    ensures |r| <= MaxResults
    ensures forall s :: s in r ==> s in Flatten(classes, fetched) && Matches(s, NormalizeQuery(query))
    ensures |r| < MaxResults ==>
              forall s :: s in Flatten(classes, fetched) && Matches(s, NormalizeQuery(query)) ==> s in r
    ensures r <= FilterMatches(Flatten(classes, fetched), NormalizeQuery(query))
    ensures var all := FilterMatches(Flatten(classes, fetched), NormalizeQuery(query));
            |r| == if |all| < MaxResults then |all| else MaxResults
  {
    var all := FilterMatches(Flatten(classes, fetched), NormalizeQuery(query));
    if |all| <= MaxResults then all
    else
      assert forall s :: s in all[..MaxResults] ==> s in all;
      all[..MaxResults]
  }

  /** Filtering keeps order and multiplicity: filtering a concatenation is concatenating the
      filtered parts, and a single student is kept exactly when it matches. */
  lemma {:induction false} FilterMatchesAppend(a: seq<Student>, b: seq<Student>, q: string)
    ensures FilterMatches(a + b, q) == FilterMatches(a, q) + FilterMatches(b, q)
    ensures |a| == 1 ==> FilterMatches(a, q) == if Matches(a[0], q) then a else []
    decreases |a|
  {
    if |a| == 0 {
      assert a + b == b;
    } else {
      assert (a + b)[1..] == a[1..] + b;
      FilterMatchesAppend(a[1..], b, q);
      if |a| == 1 {
        assert a[1..] == [];
      }
    }
  }

  /** A student is in the flattened list exactly when it is some fetched student of some
      class, carrying that class's name. */
  lemma {:induction false} FlattenMembership(classes: seq<ClassInfo>, fetched: seq<Option<seq<Student>>>, s: Student)
    requires |fetched| == |classes|
    ensures s in Flatten(classes, fetched) <==>
              exists i, j :: 0 <= i < |classes| && fetched[i].Some? && 0 <= j < |fetched[i].value|
                             && s == fetched[i].value[j].(className := Some(classes[i].className))
  {
    if |classes| > 0 {
      FlattenMembership(classes[1..], fetched[1..], s);
      var head := match fetched[0] case None => [] case Some(students) => Tag(students, classes[0].className);
      assert Flatten(classes, fetched) == head + Flatten(classes[1..], fetched[1..]);
      if s in Flatten(classes, fetched) {
        if s in head {
          var j :| 0 <= j < |head| && head[j] == s;
          assert s == fetched[0].value[j].(className := Some(classes[0].className));
        } else {
          var i, j :| 0 <= i < |classes[1..]| && fetched[1..][i].Some? && 0 <= j < |fetched[1..][i].value|
                      && s == fetched[1..][i].value[j].(className := Some(classes[1..][i].className));
          assert fetched[i + 1] == fetched[1..][i] && classes[i + 1] == classes[1..][i];
        }
      }
      forall i, j | 0 <= i < |classes| && fetched[i].Some? && 0 <= j < |fetched[i].value|
                    && s == fetched[i].value[j].(className := Some(classes[i].className))
        ensures s in Flatten(classes, fetched)
      {
        if i == 0 {
          assert head[j] == s;
        } else {
          assert fetched[1..][i - 1] == fetched[i] && classes[1..][i - 1] == classes[i];
        }
      }
    }
  }

  /** Class order is kept: the students of a prefix of the classes come before the rest. */
  lemma {:induction false} FlattenAppend(c1: seq<ClassInfo>, f1: seq<Option<seq<Student>>>,
                                         c2: seq<ClassInfo>, f2: seq<Option<seq<Student>>>)
    requires |f1| == |c1| && |f2| == |c2|
    ensures Flatten(c1 + c2, f1 + f2) == Flatten(c1, f1) + Flatten(c2, f2)
    decreases |c1|
  {
    if |c1| > 0 {
      assert (c1 + c2)[1..] == c1[1..] + c2;
      assert (f1 + f2)[1..] == f1[1..] + f2;
      FlattenAppend(c1[1..], f1[1..], c2, f2);
    } else {
      assert c1 + c2 == c2 && f1 + f2 == f2;
    }
  }

  /** A class whose student fetch failed changes nothing: the search gives the same result
      as a search over the other classes alone. */
  lemma FailedClassIsIsolated(classes: seq<ClassInfo>, fetched: seq<Option<seq<Student>>>, i: nat, query: string)
    requires |fetched| == |classes| && i < |classes| && fetched[i].None?
    ensures SearchStudents(classes, fetched, query)
            == SearchStudents(classes[..i] + classes[i + 1..], fetched[..i] + fetched[i + 1..], query)
  {
    assert classes == classes[..i] + ([classes[i]] + classes[i + 1..]);
    assert fetched == fetched[..i] + ([fetched[i]] + fetched[i + 1..]);
    FlattenAppend(classes[..i], fetched[..i], [classes[i]] + classes[i + 1..], [fetched[i]] + fetched[i + 1..]);
    FlattenAppend(classes[..i], fetched[..i], classes[i + 1..], fetched[i + 1..]);
    assert Flatten([classes[i]] + classes[i + 1..], [fetched[i]] + fetched[i + 1..])
           == Flatten(classes[i + 1..], fetched[i + 1..]) by {
      assert ([classes[i]] + classes[i + 1..])[1..] == classes[i + 1..];
      assert ([fetched[i]] + fetched[i + 1..])[1..] == fetched[i + 1..];
    }
  }
}
