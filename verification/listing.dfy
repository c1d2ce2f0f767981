/** The cross-course lists of activities waiting to be graded (assign_ungraded
    and quiz_ungraded): for each course in turn, its recent activities with at
    least one ungraded submission, ascending by close time. */
module Listing {
  import opened Base
  import opened Adapters
  import opened Store

  /** One row of the list. */
  datatype UngradedRow = UngradedRow(
    cmid: int,                // coursemoduleid
    instance: int,            // instanceid
    course: int,
    openTime: Option<int>,
    closeTime: int,
    ungraded: int)            // distinct users awaiting a grade

  /** Whether activity `id` belongs in the list of `course`: it is in the course,
      its close time is set and recent, and some non-grader has a qualifying
      submission without a grade row. */
  predicate Listed(t: ModTables, course: int, graders: set<int>, now: int, p: Pending, closeField: string, id: int)
  {
    && InCourse(t, id, course)
    && closeField in t.instances[id].columns
    && Recent(t.instances[id].columns[closeField], now)
    && PendingUsers(t, id, graders, p) != {}
  }

  /** The row the query returns for a listed activity. */
  function ListedRow(t: ModTables, graders: set<int>, p: Pending, openField: string, closeField: string, id: int): (r: UngradedRow)
    requires id in t.instances && closeField in t.instances[id].columns
  {
    var inst := t.instances[id];
    UngradedRow(inst.cmid, id, inst.course, Get(inst.columns, openField), inst.columns[closeField],
                |PendingUsers(t, id, graders, p)|)
  }

  /** The rows for the listed activities among `ids`. */
  function ListedAmong(t: ModTables, course: int, graders: set<int>, now: int, p: Pending,
                       openField: string, closeField: string, ids: set<int>): set<UngradedRow>
  {
    set id | id in ids && Listed(t, course, graders, now, p, closeField, id) ::
      ListedRow(t, graders, p, openField, closeField, id)
  }

  predicate SortedByClose(rows: seq<UngradedRow>)
  {
    forall i, j | 0 <= i < j < |rows| :: rows[i].closeTime <= rows[j].closeTime
  }

  /** Inserts a row into a list sorted by close time, after the rows that
      close no later than it. */
  function InsertByClose(rows: seq<UngradedRow>, x: UngradedRow): (r: seq<UngradedRow>)
    requires SortedByClose(rows)
    ensures SortedByClose(r)
    ensures multiset(r) == multiset(rows) + multiset{x}
  {
    if |rows| == 0 then [x]
    else if x.closeTime < rows[0].closeTime then
      SortedCons(x, rows);
      [x] + rows
    else
      var rest := InsertByClose(rows[1..], x);
      HeadBelowTail(rows);
      BoundCarriesOver(rows[0].closeTime, rows[1..], x, rest);
      SortedCons(rows[0], rest);
      assert rows == [rows[0]] + rows[1..];
      [rows[0]] + rest
  }

  /** No row of `s` closes before `t`. */
  predicate ClosesFrom(t: int, s: seq<UngradedRow>)
  {
    forall k | 0 <= k < |s| :: t <= s[k].closeTime
  }

  /** A row closing no later than a sorted list may go in front of it. */
  lemma SortedCons(y: UngradedRow, s: seq<UngradedRow>)
    requires SortedByClose(s) && ClosesFrom(y.closeTime, s)
    ensures SortedByClose([y] + s)
  {
    var r := [y] + s;
    forall i, j | 0 <= i < j < |r| ensures r[i].closeTime <= r[j].closeTime {
      if i > 0 {
        assert r[i] == s[i - 1] && r[j] == s[j - 1];
      } else {
        assert r[j] == s[j - 1];
      }
    }
  }

  /** The head of a sorted list closes no later than its tail. */
  lemma HeadBelowTail(rows: seq<UngradedRow>)
    requires |rows| > 0 && SortedByClose(rows)
    ensures ClosesFrom(rows[0].closeTime, rows[1..])
  {
    forall k | 0 <= k < |rows[1..]| ensures rows[0].closeTime <= rows[1..][k].closeTime {
      assert rows[1..][k] == rows[k + 1];
    }
  }

  /** A bound on a list and on an extra row is a bound on any rearrangement
      of the two together. */
  lemma BoundCarriesOver(t: int, s: seq<UngradedRow>, x: UngradedRow, r: seq<UngradedRow>)
    requires ClosesFrom(t, s) && t <= x.closeTime
    requires multiset(r) == multiset(s) + multiset{x}
    ensures ClosesFrom(t, r)
  {
    forall k | 0 <= k < |r| ensures t <= r[k].closeTime {
      assert r[k] in multiset(r);
      if r[k] != x {
        assert r[k] in multiset(s);
        var j :| 0 <= j < |s| && s[j] == r[k];
      }
    }
  }

  /** The list for one course: every listed activity exactly once, ascending by
      close time. */
  method CourseUngraded(t: ModTables, course: int, graders: set<int>, now: int, p: Pending,
                        openField: string, closeField: string)
    returns (rows: seq<UngradedRow>)
    ensures SortedByClose(rows)
    ensures multiset(rows) == multiset(ListedAmong(t, course, graders, now, p, openField, closeField, t.instances.Keys))
  {
    rows := [];
    var todo := t.instances.Keys;
    while todo != {}
      invariant todo <= t.instances.Keys
      invariant SortedByClose(rows)
      invariant multiset(rows) == multiset(ListedAmong(t, course, graders, now, p, openField, closeField, t.instances.Keys - todo))
      decreases todo
    {
      NonEmptyHasElement(todo);
      var id :| id in todo;
      ListedAmongAdd(t, course, graders, now, p, openField, closeField, t.instances.Keys - todo, id);
      if Listed(t, course, graders, now, p, closeField, id) {
        rows := InsertByClose(rows, ListedRow(t, graders, p, openField, closeField, id));
      }
      assert (t.instances.Keys - todo) + {id} == t.instances.Keys - (todo - {id});
      todo := todo - {id};
    }
  }

  /** A non-empty set has an element to pick. */
  lemma NonEmptyHasElement(s: set<int>)
    requires s != {}
    ensures exists x :: x in s
  {
    assert !(forall y :: y !in s) by {
      if forall y :: y !in s {
        assert false;
      }
    }
  }

  /** Extending the examined ids by a new one adds its row, if it is listed,
      and that row is new. */
  lemma ListedAmongAdd(t: ModTables, course: int, graders: set<int>, now: int, p: Pending,
                       openField: string, closeField: string, ids: set<int>, id: int)
    requires id !in ids
    ensures var before := ListedAmong(t, course, graders, now, p, openField, closeField, ids);
      var after := ListedAmong(t, course, graders, now, p, openField, closeField, ids + {id});
      if Listed(t, course, graders, now, p, closeField, id) then
        var x := ListedRow(t, graders, p, openField, closeField, id);
        x !in before && multiset(after) == multiset(before) + multiset{x}
      else after == before
  {
    var before := ListedAmong(t, course, graders, now, p, openField, closeField, ids);
    var after := ListedAmong(t, course, graders, now, p, openField, closeField, ids + {id});
    if Listed(t, course, graders, now, p, closeField, id) {
      var x := ListedRow(t, graders, p, openField, closeField, id);
      assert after == before + {x};
    }
  }

  /** Whether `block` is the list of `course`: sorted by close time, and
      holding each listed activity of the course exactly once. */
  predicate CourseBlock(t: ModTables, course: int, graders: set<int>, now: int, p: Pending,
                        openField: string, closeField: string, block: seq<UngradedRow>)
  {
    && SortedByClose(block)
    && multiset(block) == multiset(ListedAmong(t, course, graders, now, p, openField, closeField, t.instances.Keys))
  }

  /** The lists of several courses, one after the other. */
  function Concat(blocks: seq<seq<UngradedRow>>): seq<UngradedRow>
  {
    if |blocks| == 0 then [] else Concat(blocks[..|blocks| - 1]) + blocks[|blocks| - 1]
  }

  /** The list across courses: no courses gives no list (`false`); otherwise the
      per-course lists, in the order the courses are given. */
  method Ungraded(store: Store, m: ModName, p: Pending, openField: string, closeField: string,
                  courseIds: seq<int>, now: int)
    returns (r: Option<seq<UngradedRow>>, ghost blocks: seq<seq<UngradedRow>>)
    ensures r.None? <==> |courseIds| == 0
    ensures |blocks| == |courseIds|
    ensures r.Some? ==> r.value == Concat(blocks)
    ensures forall k | 0 <= k < |courseIds| ::
      CourseBlock(store.tables(m), courseIds[k], store.graders(courseIds[k]), now, p, openField, closeField, blocks[k])
  {
    if |courseIds| == 0 {
      return None, [];
    }
    var all: seq<UngradedRow> := [];
    blocks := [];
    var i := 0;
    while i < |courseIds|
      invariant 0 <= i <= |courseIds|
      invariant |blocks| == i
      invariant all == Concat(blocks)
      invariant forall k | 0 <= k < i ::
        CourseBlock(store.tables(m), courseIds[k], store.graders(courseIds[k]), now, p, openField, closeField, blocks[k])
    {
      var course := courseIds[i];
      var rows := CourseUngraded(store.tables(m), course, store.graders(course), now, p, openField, closeField);
      assert (blocks + [rows])[..i] == blocks;
      all, blocks := all + rows, blocks + [rows];
      i := i + 1;
    }
    r := Some(all);
  }

  /** assign_ungraded: assignments with submitted, ungraded submissions,
      ordered by due date. */
  method AssignUngraded(store: Store, courseIds: seq<int>, now: int)
    returns (r: Option<seq<UngradedRow>>, ghost blocks: seq<seq<UngradedRow>>)
    ensures r.None? <==> |courseIds| == 0
    ensures |blocks| == |courseIds|
    ensures r.Some? ==> r.value == Concat(blocks)
    ensures forall k | 0 <= k < |courseIds| ::
      var t := store.tables(Assign);
      var course := courseIds[k];
      && SortedByClose(blocks[k])
      && multiset(blocks[k]) == multiset(ListedAmong(t, course, store.graders(course), now, StatusIs("submitted"),
                                                     "allowsubmissionsfromdate", "duedate", t.instances.Keys))
  {
    r, blocks := Ungraded(store, Assign, StatusIs("submitted"), "allowsubmissionsfromdate", "duedate", courseIds, now);
  }

  /** quiz_ungraded: quizzes with finished, ungraded attempts, ordered by close
      time. */
  method QuizUngraded(store: Store, courseIds: seq<int>, now: int)
    returns (r: Option<seq<UngradedRow>>, ghost blocks: seq<seq<UngradedRow>>)
    ensures r.None? <==> |courseIds| == 0
    ensures |blocks| == |courseIds|
    ensures r.Some? ==> r.value == Concat(blocks)
    ensures forall k | 0 <= k < |courseIds| ::
      var t := store.tables(Quiz);
      var course := courseIds[k];
      && SortedByClose(blocks[k])
      && multiset(blocks[k]) == multiset(ListedAmong(t, course, store.graders(course), now, StatusIs("finished"),
                                                     "timeopen", "timeclose", t.instances.Keys))
  {
    r, blocks := Ungraded(store, Quiz, StatusIs("finished"), "timeopen", "timeclose", courseIds, now);
  }
}
