/** The task list of the todo component: the task record and the list
    transformations its handlers apply (append on create, a title-rewriting
    map on edit, a status-rewriting map on complete, a filter on remove),
    with the properties those transformations keep. */
module TaskList {

  const PENDING := "pending"
  const COMPLETE := "Complete"
  const DEFAULT_PRIORITY := "Not Set yet"

  /** One row of the list. Status and priority are free text: the seed list
      may hold any values, and only "pending" and "Complete" are ever written. */
  datatype Task = Task(id: int, title: string, status: string, priority: string)

  /** Ids strictly increase along the list (the order in which tasks are appended). */
  predicate IdsIncreasing(tasks: seq<Task>) {
    forall i, j | 0 <= i < j < |tasks| :: tasks[i].id < tasks[j].id
  }

  /** No two tasks share an id. */
  predicate IdsUnique(tasks: seq<Task>) {
    forall i, j | 0 <= i < j < |tasks| :: tasks[i].id != tasks[j].id
  }

  /** Some task carries the given id. */
  predicate HasId(tasks: seq<Task>, id: int) {
    exists i | 0 <= i < |tasks| :: tasks[i].id == id
  }

  /** Increasing ids are in particular unique ids. */
  lemma IncreasingIdsAreUnique(tasks: seq<Task>)
    requires IdsIncreasing(tasks)
    ensures IdsUnique(tasks)
  {
  }

  /** The id a newly created task receives: the id of the LAST task plus one,
      or 1 when the list is empty. */
  function NextId(tasks: seq<Task>): (r: int)
    ensures tasks == [] ==> r == 1
    ensures IdsIncreasing(tasks) ==> forall i | 0 <= i < |tasks| :: tasks[i].id < r
  {
    if |tasks| == 0 then 1 else tasks[|tasks| - 1].id + 1
  }

  /** The largest id in a non-empty list. */
  function MaxId(tasks: seq<Task>): (m: int)
    requires tasks != []
    ensures forall i | 0 <= i < |tasks| :: tasks[i].id <= m
    ensures HasId(tasks, m)
  {
    if |tasks| == 1 then
      tasks[0].id
    else
      var rest := MaxId(tasks[1..]);
      if tasks[0].id < rest then
        assert HasId(tasks[1..], rest);
        var k :| 0 <= k < |tasks| - 1 && tasks[1..][k].id == rest;
        assert tasks[k + 1].id == rest;
        rest
      else
        tasks[0].id
  }

  /** While ids increase, "last id plus one" is "largest id plus one". */
  lemma NextIdIsMaxPlusOne(tasks: seq<Task>)
    requires tasks != [] && IdsIncreasing(tasks)
    ensures NextId(tasks) == MaxId(tasks) + 1
  {
  }

  /** Without increasing ids, "last id plus one" can collide with an id in use. */
  lemma NextIdCanCollide()
    ensures var tasks := [Task(2, "a", PENDING, DEFAULT_PRIORITY), Task(1, "b", PENDING, DEFAULT_PRIORITY)];
            NextId(tasks) == tasks[0].id
  {
  }

  /** The task the create branch appends. */
  function NewTask(id: int, title: string): Task {
    Task(id, title, PENDING, DEFAULT_PRIORITY)
  }

  /** Create: the old tasks followed by exactly one new pending task. */
  function AddTask(tasks: seq<Task>, title: string): (r: seq<Task>)
    ensures |r| == |tasks| + 1 && r[..|tasks|] == tasks
    ensures r[|tasks|] == NewTask(NextId(tasks), title)
    ensures IdsIncreasing(tasks) ==> IdsIncreasing(r)
  {
    tasks + [NewTask(NextId(tasks), title)]
  }

  /** Creating tasks one title after another, starting from `tasks`. */
  function AddAll(tasks: seq<Task>, titles: seq<string>): seq<Task>
  {
    if titles == [] then tasks
    else AddTask(AddAll(tasks, titles[..|titles| - 1]), titles[|titles| - 1])
  }

  /** From an empty list, the k-th created task (counting from 0) gets id k + 1. */
  lemma {:induction false} AddAllFromEmpty(titles: seq<string>)
    ensures |AddAll([], titles)| == |titles|
    ensures forall k | 0 <= k < |titles| :: AddAll([], titles)[k] == NewTask(k + 1, titles[k])
  {
    if titles != [] {
      var n := |titles| - 1;
      AddAllFromEmpty(titles[..n]);
      var before := AddAll([], titles[..n]);
      assert n > 0 ==> before[n - 1] == NewTask(n, titles[..n][n - 1]);
      assert NextId(before) == n + 1;
      forall k | 0 <= k < |titles|
        ensures AddAll([], titles)[k] == NewTask(k + 1, titles[k])
      {
        if k < n {
          assert AddAll([], titles)[k] == before[k];
          assert titles[..n][k] == titles[k];
        }
      }
    }
  }

  /** Edit submit: the map that gives every task with the given id the new title. */
  function RenameTasks(tasks: seq<Task>, id: int, title: string): (r: seq<Task>)
    ensures |r| == |tasks|
    ensures forall i | 0 <= i < |tasks| ::
              r[i] == if tasks[i].id == id then tasks[i].(title := title) else tasks[i]
    ensures !HasId(tasks, id) ==> r == tasks
  {
    if tasks == [] then []
    else
      [if tasks[0].id == id then tasks[0].(title := title) else tasks[0]]
      + RenameTasks(tasks[1..], id, title)
  }

  /** Complete: the map that sets the status of every task with the given id. */
  function CompleteTasks(tasks: seq<Task>, id: int): (r: seq<Task>)
    ensures |r| == |tasks|
    ensures forall i | 0 <= i < |tasks| ::
              r[i] == if tasks[i].id == id then tasks[i].(status := COMPLETE) else tasks[i]
    ensures !HasId(tasks, id) ==> r == tasks
  {
    if tasks == [] then []
    else
      [if tasks[0].id == id then tasks[0].(status := COMPLETE) else tasks[0]]
      + CompleteTasks(tasks[1..], id)
  }

  /** Remove: the filter that keeps the tasks whose id differs from the given one. */
  function RemoveTasks(tasks: seq<Task>, id: int): (r: seq<Task>)
    ensures |r| <= |tasks|
    ensures !HasId(r, id)
    ensures !HasId(tasks, id) ==> r == tasks
  {
    if tasks == [] then []
    else (if tasks[0].id != id then [tasks[0]] else []) + RemoveTasks(tasks[1..], id)
  }

  /** The filter keeps a task exactly when its id differs from the removed one. */
  lemma {:induction false} RemoveKeepsExactlyTheOthers(tasks: seq<Task>, id: int, t: Task)
    ensures t in RemoveTasks(tasks, id) <==> t in tasks && t.id != id
  {
    if tasks != [] {
      RemoveKeepsExactlyTheOthers(tasks[1..], id, t);
      assert t in tasks <==> t == tasks[0] || t in tasks[1..];
    }
  }

  /** The filter keeps every copy of a task whose id differs and no copy of the others. */
  lemma {:induction false} RemoveKeepsEveryCopy(tasks: seq<Task>, id: int, t: Task)
    ensures multiset(RemoveTasks(tasks, id))[t] == if t.id != id then multiset(tasks)[t] else 0
  {
    if tasks != [] {
      RemoveKeepsEveryCopy(tasks[1..], id, t);
      assert tasks == [tasks[0]] + tasks[1..];
      var head := if tasks[0].id != id then [tasks[0]] else [];
      assert multiset(RemoveTasks(tasks, id)) == multiset(head) + multiset(RemoveTasks(tasks[1..], id));
      assert multiset(tasks) == multiset([tasks[0]]) + multiset(tasks[1..]);
    }
  }

  /** `sub` is `s` with some elements left out, the rest in their order. */
  ghost predicate IsSubsequence(sub: seq<Task>, s: seq<Task>)
    decreases |s|
  {
    sub == [] ||
    (s != [] &&
     ((sub[0] == s[0] && IsSubsequence(sub[1..], s[1..])) || IsSubsequence(sub, s[1..])))
  }

  lemma {:induction false} RemoveIsSubsequence(tasks: seq<Task>, id: int)
    ensures IsSubsequence(RemoveTasks(tasks, id), tasks)
  {
    if tasks != [] {
      RemoveIsSubsequence(tasks[1..], id);
      var r := RemoveTasks(tasks, id);
      if tasks[0].id != id {
        assert r[0] == tasks[0] && r[1..] == RemoveTasks(tasks[1..], id);
      } else {
        assert r == RemoveTasks(tasks[1..], id);
      }
    }
  }

  /** The filter keeps the order of ids, so increasing ids stay increasing. */
  lemma {:induction false} RemoveKeepsIdsIncreasing(tasks: seq<Task>, id: int)
    requires IdsIncreasing(tasks)
    ensures IdsIncreasing(RemoveTasks(tasks, id))
  {
    if tasks != [] {
      var rest := RemoveTasks(tasks[1..], id);
      RemoveKeepsIdsIncreasing(tasks[1..], id);
      if tasks[0].id != id {
        var r := [tasks[0]] + rest;
        assert RemoveTasks(tasks, id) == r;
        forall j | 0 <= j < |rest| ensures tasks[0].id < rest[j].id {
          RemoveKeepsExactlyTheOthers(tasks[1..], id, rest[j]);
          var k :| 0 <= k < |tasks| - 1 && tasks[1..][k] == rest[j];
          assert tasks[k + 1] == rest[j];
        }
      } else {
        assert RemoveTasks(tasks, id) == rest;
      }
    }
  }

  /** The filter of a concatenation is the concatenation of the filters. */
  lemma {:induction false} RemoveDistributes(a: seq<Task>, b: seq<Task>, id: int)
    ensures RemoveTasks(a + b, id) == RemoveTasks(a, id) + RemoveTasks(b, id)
  {
    if a == [] {
      assert a + b == b;
    } else {
      var head := if a[0].id != id then [a[0]] else [];
      assert (a + b)[0] == a[0] && (a + b)[1..] == a[1..] + b;
      calc {
        RemoveTasks(a + b, id);
        head + RemoveTasks(a[1..] + b, id);
        { RemoveDistributes(a[1..], b, id); }
        head + (RemoveTasks(a[1..], id) + RemoveTasks(b, id));
        (head + RemoveTasks(a[1..], id)) + RemoveTasks(b, id);
        RemoveTasks(a, id) + RemoveTasks(b, id);
      }
    }
  }

  /** With unique ids, removing a present id drops exactly that one task. */
  lemma RemoveDropsExactlyOne(tasks: seq<Task>, k: nat)
    requires IdsUnique(tasks) && k < |tasks|
    ensures RemoveTasks(tasks, tasks[k].id) == tasks[..k] + tasks[k + 1..]
    ensures |RemoveTasks(tasks, tasks[k].id)| == |tasks| - 1
  {
    var id := tasks[k].id;
    var before, after := tasks[..k], tasks[k + 1..];
    assert !HasId(before, id) by {
      forall i | 0 <= i < |before| ensures before[i].id != id {
        assert before[i] == tasks[i];
      }
    }
    assert !HasId(after, id) by {
      forall i | 0 <= i < |after| ensures after[i].id != id {
        assert after[i] == tasks[k + 1 + i];
      }
    }
    var rest := [tasks[k]] + after;
    assert tasks == before + rest;
    RemoveDistributes(before, rest, id);
    assert RemoveTasks(rest, id) == RemoveTasks(after, id);
    calc {
      RemoveTasks(tasks, id);
      RemoveTasks(before, id) + RemoveTasks(rest, id);
      before + RemoveTasks(after, id);
      before + after;
    }
  }

  /** Completing the same id twice is the same as completing it once. */
  lemma CompleteIsIdempotent(tasks: seq<Task>, id: int)
    ensures CompleteTasks(CompleteTasks(tasks, id), id) == CompleteTasks(tasks, id)
  {
  }

  /** The edit map keeps every id in place, so increasing ids stay increasing. */
  lemma RenameKeepsIdsIncreasing(tasks: seq<Task>, id: int, title: string)
    requires IdsIncreasing(tasks)
    ensures IdsIncreasing(RenameTasks(tasks, id, title))
  {
  }

  /** The complete map keeps every id in place, so increasing ids stay increasing. */
  lemma CompleteKeepsIdsIncreasing(tasks: seq<Task>, id: int)
    requires IdsIncreasing(tasks)
    ensures IdsIncreasing(CompleteTasks(tasks, id))
  {
  }

  /** With unique ids, the edit submit rewrites the title of that one task only. */
  lemma RenameEditsOnlyThatTask(tasks: seq<Task>, k: nat, title: string)
    requires IdsUnique(tasks) && k < |tasks|
    ensures RenameTasks(tasks, tasks[k].id, title) == tasks[k := tasks[k].(title := title)]
  {
  }

  /** Beginning an edit and submitting the unchanged title leaves the list as it was. */
  lemma RenameToOwnTitleIsNoOp(tasks: seq<Task>, k: nat)
    requires IdsUnique(tasks) && k < |tasks|
    ensures RenameTasks(tasks, tasks[k].id, tasks[k].title) == tasks
  {
    RenameEditsOnlyThatTask(tasks, k, tasks[k].title);
    assert tasks[k].(title := tasks[k].title) == tasks[k];
  }

  /** Ids are reused: when the last task's id follows its predecessor's (or is 1
      for a single task), removing it and creating again hands out the same id. */
  lemma RemovingLastTaskFreesItsId(tasks: seq<Task>)
    requires tasks != [] && IdsIncreasing(tasks)
    requires var n := |tasks|;
             if n == 1 then tasks[0].id == 1 else tasks[n - 1].id == tasks[n - 2].id + 1
    ensures NextId(RemoveTasks(tasks, tasks[|tasks| - 1].id)) == tasks[|tasks| - 1].id
  {
    var n := |tasks|;
    IncreasingIdsAreUnique(tasks);
    RemoveDropsExactlyOne(tasks, n - 1);
    assert tasks[..n - 1] + tasks[n..] == tasks[..n - 1];
  }
}
