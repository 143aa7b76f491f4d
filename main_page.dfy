/**
 * The page controller of the task board: three columns of records, the
 * `sync` flag that says a remote mutation is under way, and the operations
 * that change them. Each operation runs to completion; the database is the
 * log of calls issued (`calls`) and query answers are parameters.
 */
module MainPage {
  import opened Wrappers
  import opened Remote
  import opened Board

  /**
   * The `forEach` of a fetch: one record per query document, pushed in
   * query order, each with its handle attached.
   */
  method CollectSnapshot(docs: seq<QueryDoc>) returns (arr: seq<Task>)
    ensures arr == Records(docs)
  {
    arr := [];
    var i := 0;
    while i < |docs|
      invariant 0 <= i <= |docs|
      invariant arr == Records(docs[..i])
    {
      assert docs[..i + 1][..i] == docs[..i];
      arr := arr + [FromDoc(docs[i])];
      i := i + 1;
    }
    assert docs[..|docs|] == docs;
  }

  class TaskBoard {
    var queue: seq<Task>
    var development: seq<Task>
    var done: seq<Task>
    /** `sync.current`: a remote mutation sequence has started and not finished. */
    var sync: bool
    /** The database calls issued so far, oldest first. */
    var calls: seq<Call>

    /** The page as first rendered: empty columns, not syncing, nothing issued. */
    constructor ()
      ensures queue == [] && development == [] && done == []
      ensures !sync && calls == []
    {
      queue, development, done := [], [], [];
      sync := false;
      calls := [];
    }

    function State(): Columns
      reads this
    {
      Columns(queue, development, done)
    }

    function Column(status: string): seq<Task>
      requires status in Statuses
      reads this
    {
      State().Get(status)
    }

    /** `setQueue`, `setDevelopment` or `setDone`. */
    method SetColumn(status: string, col: seq<Task>)
      requires status in Statuses
      modifies this
      ensures State() == old(State()).With(status, col)
      ensures sync == old(sync) && calls == old(calls)
    {
      if status == Queue {
        queue := col;
      } else if status == Development {
        development := col;
      } else {
        done := col;
      }
    }

    /**
     * `fetching`: queries the three collections in the order of
     * `statuses` and stores each answer reversed. `server` gives the answer
     * each collection's query returns.
     */
    method Fetching(server: string -> seq<QueryDoc>)
      modifies this
      ensures queue == FetchedColumn(server(Queue))
      ensures development == FetchedColumn(server(Development))
      ensures done == FetchedColumn(server(Done))
      ensures calls == old(calls) + [Query(Queue), Query(Development), Query(Done)]
      ensures sync == old(sync)
    {
      var rawQueue, rawDevelopment, rawDone := [], [], [];
      for k := 0 to |Statuses|
        invariant calls == old(calls) + [Query(Queue), Query(Development), Query(Done)][..k]
        invariant rawQueue == if k > 0 then Records(server(Queue)) else []
        invariant rawDevelopment == if k > 1 then Records(server(Development)) else []
        invariant rawDone == if k > 2 then Records(server(Done)) else []
        invariant sync == old(sync)
      {
        var val := Statuses[k];
        calls := calls + [Query(val)];
        var recs := CollectSnapshot(server(val));
        if val == Queue {
          rawQueue := rawQueue + recs;
        } else if val == Development {
          rawDevelopment := rawDevelopment + recs;
        } else {
          rawDone := rawDone + recs;
        }
      }
      queue := Reversed(rawQueue);
      development := Reversed(rawDevelopment);
      done := Reversed(rawDone);
    }

    /**
     * `fetchOne`: queries one collection and replaces its column with the
     * answer reversed. An unknown name issues nothing and changes nothing.
     */
    method FetchOne(which: string, docs: seq<QueryDoc>)
      modifies this
      ensures which !in Statuses ==> State() == old(State()) && calls == old(calls)
      ensures which in Statuses ==>
                && State() == old(State()).With(which, FetchedColumn(docs))
                && calls == old(calls) + [Query(which)]
      ensures sync == old(sync)
    {
      if which !in Statuses {
        return;
      }
      calls := calls + [Query(which)];
      var arr := CollectSnapshot(docs);
      SetColumn(which, Reversed(arr));
    }

    /**
     * `deleteDoc`: records the delete of `ref`. The database client rejects
     * an absent handle, so `ok` says whether the delete went through; a
     * rejection aborts the operation that awaited it.
     */
    method DeleteDoc(ref: Option<DocRef>) returns (ok: bool)
      modifies this
      ensures ok <==> ref.Some?
      ensures calls == old(calls) + [Delete(ref)]
      ensures State() == old(State()) && sync == old(sync)
    {
      calls := calls + [Delete(ref)];
      ok := ref.Some?;
    }

    /**
     * `deleteCard`: removes the record at `index` from its column and
     * deletes its document. An unknown status returns early, and a draft's
     * rejected delete aborts the rest; both leave `sync` set.
     */
    method DeleteCard(index: nat, status: string)
      requires status in Statuses ==> index < |Column(status)|
      modifies this
      ensures status !in Statuses ==> State() == old(State()) && calls == old(calls) && sync
      ensures status in Statuses ==>
                && State() == old(State()).With(status, FilterByIndex(old(Column(status)), index))
                && calls == old(calls) + [Delete(old(Column(status))[index].docRef)]
                && (sync <==> old(Column(status))[index].IsNew())
    {
      sync := true;
      if status !in Statuses {
        return;
      }
      var state := Column(status);
      SetColumn(status, FilterByIndex(state, index));
      var ok := DeleteDoc(state[index].docRef);
      if !ok {
        return;
      }
      sync := false;
    }

    /**
     * `editCard`: overwrites the edited fields of the record at `index` and
     * issues one call, an update of its handle or, for a draft, an add to
     * the collection of `status`. The draft gets no handle locally. An
     * unknown status changes nothing and issues nothing.
     */
    method EditCard(index: nat, obj: TaskData, status: string, now: string)
      requires status in Statuses ==> index < |Column(status)|
      modifies this
      ensures status !in Statuses ==> State() == old(State()) && calls == old(calls)
      ensures status in Statuses ==>
                && State() == old(State()).With(status, EditItem(old(Column(status)), index, EditOf(obj)))
                && calls == old(calls) + [EditCall(old(Column(status))[index], obj, status, now)]
      ensures !sync
    {
      sync := true;
      var data := EditOf(obj);
      if status in Statuses {
        var state := Column(status);
        SetColumn(status, EditItem(state, index, data));
        var rec := state[index];
        if rec.docRef.Some? {
          calls := calls + [Update(rec.docRef.value, data)];
        } else {
          calls := calls + [Add(status, FormatDataForFirebase(obj, "", now))];
        }
      }
      sync := false;
    }

    /**
     * `addCard`: puts a blank draft created at `now` first in the queue
     * column, or first in the development column for any other status.
     */
    method AddCard(status: string, now: int)
      modifies this
      ensures status == Queue ==> queue == [Draft(now)] + old(queue) && development == old(development)
      ensures status != Queue ==> development == [Draft(now)] + old(development) && queue == old(queue)
      ensures done == old(done)
      ensures sync == old(sync) && calls == old(calls)
    {
      if status == Queue {
        queue := [Draft(now)] + queue;
      } else {
        development := [Draft(now)] + development;
      }
    }

    /**
     * `changeHandler`: puts `state[index]` first in the "if" column when
     * `newStatus` names it, else in the "else" column; deletes its old
     * document, adds the formatted record to the chosen collection and
     * refreshes that column from `refreshed`. `beforeRefresh` is the board
     * just after the local move. A record without a handle stops at the
     * rejected delete: `completed` is false, no add and no refresh follow.
     */
    method ChangeHandler(index: nat, newStatus: string, now: string, refreshed: seq<QueryDoc>,
                         ifStatus: string, elseStatus: string, state: seq<Task>)
      returns (completed: bool, ghost beforeRefresh: Columns)
      requires ifStatus in Statuses && elseStatus in Statuses
      requires index < |state|
      modifies this
      ensures completed <==> !state[index].IsNew()
      ensures var target := if newStatus == ifStatus then ifStatus else elseStatus;
              // the formatter's status: `MoveStatusArg`'s rule for this (if, else) pair
              var arg := if newStatus == ifStatus then "" else if elseStatus == Done then Done else "";
              && beforeRefresh == old(State()).With(target, [state[index]] + old(Column(target)))
              && (completed ==>
                    && State() == beforeRefresh.With(target, FetchedColumn(refreshed))
                    && calls == old(calls) + [Delete(state[index].docRef),
                                              Add(target, FormatDataForFirebase(state[index].data, arg, now)),
                                              Query(target)])
              && (!completed ==>
                    && State() == beforeRefresh
                    && calls == old(calls) + [Delete(state[index].docRef)])
      ensures sync == old(sync)
    {
      if newStatus == ifStatus {
        SetColumn(ifStatus, [state[index]] + Column(ifStatus));
        beforeRefresh := State();
        completed := DeleteDoc(state[index].docRef);
        if !completed {
          return;
        }
        calls := calls + [Add(ifStatus, FormatDataForFirebase(state[index].data, "", now))];
        FetchOne(ifStatus, refreshed);
      } else {
        SetColumn(elseStatus, [state[index]] + Column(elseStatus));
        beforeRefresh := State();
        completed := DeleteDoc(state[index].docRef);
        if !completed {
          return;
        }
        calls := calls + [Add(elseStatus, FormatDataForFirebase(state[index].data, if elseStatus == Done then Done else "", now))];
        FetchOne(elseStatus, refreshed);
      }
    }

    /**
     * `changeStatus`: moves the record at `index` of `prevStatus` to the
     * column `ChangeTarget` picks, deletes its old document, adds it to the
     * target collection with its completion time set or cleared, and
     * refreshes the target column from `refreshed`. Before the refresh the
     * board is `MoveLocal` of the old board. A record without a handle is
     * moved locally only: its delete is rejected and `sync` stays set. An
     * unknown `prevStatus` changes nothing and issues nothing.
     */
    method ChangeStatus(index: nat, prevStatus: string, newStatus: string, now: string,
                        refreshed: seq<QueryDoc>)
      returns (ghost beforeRefresh: Columns)
      requires prevStatus in Statuses ==> index < |Column(prevStatus)|
      modifies this
      ensures prevStatus !in Statuses ==> State() == old(State()) && calls == old(calls) && !sync
      ensures prevStatus in Statuses ==>
                var target := ChangeTarget(prevStatus, newStatus).value;
                var moved := old(Column(prevStatus))[index];
                && beforeRefresh == MoveLocal(old(State()), index, prevStatus, newStatus)
                && (!moved.IsNew() ==>
                      && State() == beforeRefresh.With(target, FetchedColumn(refreshed))
                      && calls == old(calls) + [Delete(moved.docRef),
                                                Add(target, MovedDoc(moved, prevStatus, newStatus, now)),
                                                Query(target)]
                      && !sync)
                && (moved.IsNew() ==>
                      && State() == beforeRefresh
                      && calls == old(calls) + [Delete(None)]
                      && sync)
    {
      sync := true;
      beforeRefresh := State();
      match Branches(prevStatus) {
        case None =>
        case Some(pair) =>
          var state := Column(prevStatus);
          SetColumn(prevStatus, FilterByIndex(state, index));
          var completed;
          completed, beforeRefresh := ChangeHandler(index, newStatus, now, refreshed, pair.0, pair.1, state);
          if !completed {
            return;
          }
      }
      sync := false;
    }
  }
}
