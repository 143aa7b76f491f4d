/**
 * The remote document database as the task board sees it. Only the shapes
 * of what crosses the boundary are modelled: the fields of a stored task,
 * the opaque document handle, one document of a query answer, and the calls
 * the page controller issues, which the model records in order.
 */
module Remote {
  import opened Wrappers

  /** An opaque handle to one stored document (`doc.ref`). */
  datatype DocRef = DocRef(path: string)

  /**
   * The fields of a stored task. A missing `doneAt` and an empty one are
   * the same to the controller (both are falsy), so both are written "".
   */
  datatype TaskData = TaskData(
    name: string,
    description: string,
    deadline: string,
    createdAt: int,
    doneAt: string)

  /** The fields an edit overwrites: the `data` object of `editCard`. */
  datatype Edit = Edit(name: string, deadline: string, description: string)

  /** One document of a query answer: its fields and its handle. */
  datatype QueryDoc = QueryDoc(data: TaskData, ref: DocRef)

  /** A call to the database, as issued by the controller. */
  datatype Call =
    | Query(collection: string)              // getDocs, ordered by createdAt ascending
    | Add(collection: string, doc: TaskData) // addDoc
    | Update(ref: DocRef, fields: Edit)      // updateDoc
    | Delete(target: Option<DocRef>)         // deleteDoc; the handle is passed even when absent

  /** What the database promises of an answer to `orderBy('createdAt')`. */
  predicate AscendingByCreatedAt(docs: seq<QueryDoc>) {
    forall i, j :: 0 <= i < j < |docs| ==> docs[i].data.createdAt <= docs[j].data.createdAt
  }
}
