/**
 * The pure part of the task-board page controller: the records the three
 * columns hold, the helpers `filterByIndex`, `formatDataForFirebase` and
 * `editItem`, the column a fetch builds from a query answer, and the
 * decision table `changeStatus` uses to pick the column a record moves to.
 */
module Board {
  import opened Wrappers
  import opened Remote

  const Queue: string := "queue"
  const Development: string := "development"
  const Done: string := "done"

  /** The `statuses` array: the column and collection names, in fetch order. */
  const Statuses: seq<string> := [Queue, Development, Done]

  /** A record held in a column: the stored fields plus the handle of its document. */
  datatype Task = Task(data: TaskData, docRef: Option<DocRef>) {
    /** A draft has no handle; this is the only sign that it was never stored. */
    predicate IsNew() {
      docRef.None?
    }
  }

  /** The blank record `addCard` prepends: empty fields, no `doneAt`, no handle. */
  function Draft(now: int): Task {
    Task(TaskData("", "", "", now, ""), None)
  }

  /** The record a fetch builds from one query document, handle attached. */
  function FromDoc(d: QueryDoc): Task {
    Task(d.data, Some(d.ref))
  }

  // ---------------------------------------------------------------------
  // filterByIndex

  /**
   * `arr.filter((item, i) => i !== index)`: keeps every position except
   * `index`, in order. An index outside the array matches no position.
   */
  function FilterByIndex<T>(arr: seq<T>, index: int): (r: seq<T>)
    ensures 0 <= index < |arr| ==> r == arr[..index] + arr[index + 1..]
    ensures !(0 <= index < |arr|) ==> r == arr
    ensures |r| == if 0 <= index < |arr| then |arr| - 1 else |arr|
    decreases |arr|
  {
    if |arr| == 0 then []
    else
      var last := |arr| - 1;
      var front := arr[..last];
      assert arr == front + [arr[last]];
      FilterByIndex(front, index) + (if last == index then [] else [arr[last]])
  }

  /** Removing a valid position takes away exactly that element and keeps the rest. */
  lemma FilterByIndexRemovesOne<T>(arr: seq<T>, index: nat)
    requires index < |arr|
    ensures multiset(FilterByIndex(arr, index)) + multiset{arr[index]} == multiset(arr)
    ensures forall k :: 0 <= k < |arr| - 1 ==>
              FilterByIndex(arr, index)[k] == arr[if k < index then k else k + 1]
  {
    assert arr == arr[..index] + [arr[index]] + arr[index + 1..];
  }

  // ---------------------------------------------------------------------
  // formatDataForFirebase

  /**
   * The document written by `addDoc`: the four descriptive fields copied,
   * `doneAt` kept, cleared or stamped with the formatted time `now`.
   * `newStatus` is '' when the caller passes none.
   */
  function FormatDataForFirebase(obj: TaskData, newStatus: string, now: string): (r: TaskData)
    ensures r.name == obj.name && r.description == obj.description
    ensures r.deadline == obj.deadline && r.createdAt == obj.createdAt
    // a completion time survives only when some status is named
    ensures obj.doneAt != "" ==> (r.doneAt != "" <==> newStatus != "")
    // a missing one is stamped only when the status named is done
    ensures obj.doneAt == "" ==> (r.doneAt != "" <==> newStatus == Done && now != "")
    // an existing completion time is never replaced
    ensures r.doneAt != "" ==> r.doneAt == if obj.doneAt != "" then obj.doneAt else now
  {
    obj.(doneAt :=
      if obj.doneAt != "" then
        (if newStatus != "" then obj.doneAt else "")
      else if newStatus == Done then now
      else "")
  }

  /**
   * With the two status values the controller passes ('' or done), the
   * written document has a completion time exactly when it goes to done.
   */
  lemma FormatDoneAtMatchesStatus(obj: TaskData, newStatus: string, now: string)
    requires newStatus == "" || newStatus == Done
    requires now != ""
    ensures FormatDataForFirebase(obj, newStatus, now).doneAt != "" <==> newStatus == Done
  {
  }

  /** Formatting an already formatted document again changes nothing. */
  lemma FormatIdempotent(obj: TaskData, newStatus: string, now: string, later: string)
    requires newStatus == "" || newStatus == Done
    requires now != ""
    ensures var once := FormatDataForFirebase(obj, newStatus, now);
            FormatDataForFirebase(once, newStatus, later) == once
  {
  }

  // ---------------------------------------------------------------------
  // editCard's `data` and `editItem`

  /** The `data` object of `editCard`: the three fields an edit overwrites. */
  function EditOf(obj: TaskData): Edit {
    Edit(obj.name, obj.deadline, obj.description)
  }

  /** `{...item, ...data}`: the edited fields replaced, everything else kept. */
  function Apply(item: Task, data: Edit): Task {
    item.(data := item.data.(name := data.name, deadline := data.deadline, description := data.description))
  }

  /**
   * `editItem`: the column with the record at `index` edited and every
   * other record untouched. An index outside the column edits nothing.
   */
  function EditItem(prevData: seq<Task>, index: int, data: Edit): (r: seq<Task>)
    ensures |r| == |prevData|
    ensures forall i :: 0 <= i < |r| && i != index ==> r[i] == prevData[i]
    ensures 0 <= index < |r| ==>
              && r[index].data.name == data.name
              && r[index].data.deadline == data.deadline
              && r[index].data.description == data.description
              && r[index].data.createdAt == prevData[index].data.createdAt
              && r[index].data.doneAt == prevData[index].data.doneAt
              && r[index].docRef == prevData[index].docRef
  {
    seq(|prevData|, i requires 0 <= i < |prevData| => if i == index then Apply(prevData[i], data) else prevData[i])
  }

  /** Applying the same edit twice is the same as applying it once. */
  lemma EditItemIdempotent(prevData: seq<Task>, index: int, data: Edit)
    ensures EditItem(EditItem(prevData, index, data), index, data) == EditItem(prevData, index, data)
  {
  }

  /**
   * The one call `editCard` issues for the record `rec` it edits: an update
   * of the record's handle with the edited fields, or, for a draft, an add
   * of the formatted `obj` to the collection of `status`.
   */
  function EditCall(rec: Task, obj: TaskData, status: string, now: string): (c: Call)
    ensures c.Update? || c.Add?
    ensures c.Update? <==> !rec.IsNew()
    ensures c.Update? ==> c.ref == rec.docRef.value && c.fields == EditOf(obj)
    ensures c.Add? ==> c.collection == status && c.doc == obj.(doneAt := "")
  {
    match rec.docRef
    case Some(ref) => Update(ref, EditOf(obj))
    case None => Add(status, FormatDataForFirebase(obj, "", now))
  }

  // ---------------------------------------------------------------------
  // Columns built by a fetch

  /** `Array.prototype.reverse`, as a value. */
  function Reversed<T>(s: seq<T>): (r: seq<T>)
    ensures |r| == |s|
    decreases |s|
  {
    if |s| == 0 then [] else [s[|s| - 1]] + Reversed(s[..|s| - 1])
  }

  lemma {:induction false} ReversedAt<T>(s: seq<T>, k: nat)
    requires k < |s|
    ensures Reversed(s)[k] == s[|s| - 1 - k]
    decreases |s|
  {
    if k > 0 {
      ReversedAt(s[..|s| - 1], k - 1);
    }
  }

  /** The array the `forEach` of a fetch fills by `push`, in query order. */
  function Records(docs: seq<QueryDoc>): (r: seq<Task>)
    ensures |r| == |docs|
    ensures forall i :: 0 <= i < |docs| ==> r[i] == FromDoc(docs[i])
    decreases |docs|
  {
    if |docs| == 0 then [] else Records(docs[..|docs| - 1]) + [FromDoc(docs[|docs| - 1])]
  }

  predicate DescendingByCreatedAt(col: seq<Task>) {
    forall i, j :: 0 <= i < j < |col| ==> col[i].data.createdAt >= col[j].data.createdAt
  }

  /**
   * The column a fetch stores: the query answer's records reversed. Every
   * record carries its handle, and a column built from an answer in
   * ascending creation order is in descending creation order.
   */
  function FetchedColumn(docs: seq<QueryDoc>): (col: seq<Task>)
    ensures |col| == |docs|
    ensures forall k :: 0 <= k < |col| ==> col[k] == FromDoc(docs[|docs| - 1 - k])
    ensures forall k :: 0 <= k < |col| ==> !col[k].IsNew()
    ensures AscendingByCreatedAt(docs) ==> DescendingByCreatedAt(col)
  {
    var col := Reversed(Records(docs));
    assert forall k :: 0 <= k < |col| ==> col[k] == FromDoc(docs[|docs| - 1 - k]) by {
      forall k | 0 <= k < |col| {
        ReversedAt(Records(docs), k);
      }
    }
    col
  }

  // ---------------------------------------------------------------------
  // The three columns and the status-change table

  /** The board's three columns. */
  datatype Columns = Columns(queue: seq<Task>, development: seq<Task>, done: seq<Task>) {

    function Get(status: string): seq<Task>
      requires status in Statuses
    {
      if status == Queue then queue
      else if status == Development then development
      else done
    }

    function With(status: string, col: seq<Task>): (r: Columns)
      requires status in Statuses
      ensures r.Get(status) == col
      ensures forall s :: s in Statuses && s != status ==> r.Get(s) == Get(s)
    {
      if status == Queue then this.(queue := col)
      else if status == Development then this.(development := col)
      else this.(done := col)
    }

    /** The number of tasks on the board. */
    function Count(): (n: nat)
      ensures n == |Tasks()|
    {
      |queue| + |development| + |done|
    }

    /** The tasks on the board, whichever column holds them. */
    function Tasks(): multiset<Task> {
      multiset(queue) + multiset(development) + multiset(done)
    }
  }

  /**
   * The `(ifStatus, elseStatus)` pair `changeStatus` hands `changeHandler`
   * for each source column; none for an unknown one.
   */
  function Branches(prevStatus: string): (b: Option<(string, string)>)
    ensures b.Some? <==> prevStatus in Statuses
    ensures b.Some? ==> b.value.0 in Statuses && b.value.1 in Statuses
    ensures b.Some? ==> b.value.0 != prevStatus && b.value.1 != prevStatus && b.value.0 != b.value.1
    ensures b.Some? ==> b.value.0 != Done
    // from done, the "if" status is development and the "else" status queue
    ensures prevStatus == Done ==> b == Some((Development, Queue))
  {
    if prevStatus == Queue then Some((Development, Done))
    else if prevStatus == Development then Some((Queue, Done))
    else if prevStatus == Done then Some((Development, Queue))
    else None
  }

  /**
   * The column a record moves to: the "if" status when `newStatus` names
   * it, the "else" status for any other value. The target is always one of
   * the other two columns, and it is `newStatus` whenever that names one of
   * them. Any other `newStatus` (the source column itself, or an unknown
   * name) falls through to done from queue or development, and to queue
   * from done.
   */
  function ChangeTarget(prevStatus: string, newStatus: string): (t: Option<string>)
    ensures t.Some? <==> prevStatus in Statuses
    ensures t.Some? ==> t.value in Statuses && t.value != prevStatus
    ensures prevStatus in Statuses && newStatus in Statuses && newStatus != prevStatus ==>
              t == Some(newStatus)
    ensures prevStatus == Queue && newStatus != Development ==> t == Some(Done)
    ensures prevStatus == Development && newStatus != Queue ==> t == Some(Done)
    ensures prevStatus == Done && newStatus != Development ==> t == Some(Queue)
  {
    match Branches(prevStatus)
    case None => None
    case Some(pair) => Some(if newStatus == pair.0 then pair.0 else pair.1)
  }

  /**
   * The `newStatus` argument `changeHandler` gives `formatDataForFirebase`:
   * none in the "if" branch, done in the "else" branch when that is done.
   * It names done exactly when the record moves to done.
   */
  function MoveStatusArg(prevStatus: string, newStatus: string): (arg: string)
    requires prevStatus in Statuses
    ensures arg == if ChangeTarget(prevStatus, newStatus).value == Done then Done else ""
  {
    var pair := Branches(prevStatus).value;
    if newStatus == pair.0 then "" else if pair.1 == Done then Done else ""
  }

  /**
   * The document a move writes to the target collection: the record's
   * fields, with a completion time kept or stamped when it moves to done
   * and cleared when it moves anywhere else.
   */
  function MovedDoc(rec: Task, prevStatus: string, newStatus: string, now: string): (d: TaskData)
    requires prevStatus in Statuses
    ensures d.(doneAt := rec.data.doneAt) == rec.data
    ensures ChangeTarget(prevStatus, newStatus).value == Done ==>
              d.doneAt == if rec.data.doneAt != "" then rec.data.doneAt else now
    ensures ChangeTarget(prevStatus, newStatus).value != Done ==> d.doneAt == ""
  {
    FormatDataForFirebase(rec.data, MoveStatusArg(prevStatus, newStatus), now)
  }

  /**
   * The columns after the local part of `changeStatus`, before the target
   * column is refreshed: the record at `index` taken out of its column and
   * put first in the target column, the third column untouched. No task is
   * lost or duplicated.
   */
  function MoveLocal(cols: Columns, index: nat, prevStatus: string, newStatus: string): (r: Columns)
    requires prevStatus in Statuses ==> index < |cols.Get(prevStatus)|
    ensures prevStatus !in Statuses ==> r == cols
    ensures prevStatus in Statuses ==>
              var target := ChangeTarget(prevStatus, newStatus).value;
              && r.Get(prevStatus) == FilterByIndex(cols.Get(prevStatus), index)
              && r.Get(target) == [cols.Get(prevStatus)[index]] + cols.Get(target)
              && forall s :: s in Statuses && s != prevStatus && s != target ==> r.Get(s) == cols.Get(s)
    ensures r.Tasks() == cols.Tasks()
    ensures r.Count() == cols.Count()
  {
    match ChangeTarget(prevStatus, newStatus)
    case None => cols
    case Some(target) =>
      var col := cols.Get(prevStatus);
      var removed := cols.With(prevStatus, FilterByIndex(col, index));
      var r := removed.With(target, [col[index]] + removed.Get(target));
      MovePreservesTasks(cols, r, prevStatus, target, index);
      r
  }

  /**
   * The step behind `MoveLocal`'s count: taking one element out of column
   * `a` and prepending it to column `b` leaves the board's tasks as they were.
   */
  lemma MovePreservesTasks(cols: Columns, r: Columns, a: string, b: string, index: nat)
    requires a in Statuses && b in Statuses && a != b
    requires index < |cols.Get(a)|
    requires r.Get(a) == FilterByIndex(cols.Get(a), index)
    requires r.Get(b) == [cols.Get(a)[index]] + cols.Get(b)
    requires r.Get(Third(a, b)) == cols.Get(Third(a, b))
    ensures r.Tasks() == cols.Tasks()
  {
    var x := Third(a, b);
    var moved := multiset{cols.Get(a)[index]};
    FilterByIndexRemovesOne(cols.Get(a), index);
    assert multiset(r.Get(a)) + moved == multiset(cols.Get(a));
    assert multiset(r.Get(b)) == moved + multiset(cols.Get(b));
    TasksByColumn(r, a, b, Third(a, b));
    TasksByColumn(cols, a, b, Third(a, b));
  }

  /** The column that is neither `a` nor `b`. */
  function Third(a: string, b: string): (x: string)
    requires a in Statuses && b in Statuses && a != b
    ensures x in Statuses && x != a && x != b
  {
    if a != Queue && b != Queue then Queue
    else if a != Development && b != Development then Development
    else Done
  }

  /** The board's tasks, column by column in any order. */
  lemma TasksByColumn(c: Columns, a: string, b: string, x: string)
    requires a in Statuses && b in Statuses && x in Statuses
    requires a != b && a != x && b != x
    ensures c.Tasks() == multiset(c.Get(a)) + multiset(c.Get(b)) + multiset(c.Get(x))
  {
  }
}
