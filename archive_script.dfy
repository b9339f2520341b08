/** The category filter of public/scripts/archive.js. */
module ArchiveScript {
  import opened TaskListView

  /**
   * `filterTasks`: filters the items; with at least one item the list then
   * shows one empty message exactly when nothing is visible, and with no
   * items at all the messages are left as they were.
   */
  method FilterTasks(list: TaskList, categoryId: string)
    requires list.Valid()
    modifies list, list.hidden
    ensures list.Valid()
    ensures forall i :: 0 <= i < list.hidden.Length ==> list.hidden[i] == !Visible(categoryId, list.categoryIds[i])
    ensures |list.categoryIds| == 0 ==> list.emptyMessages == old(list.emptyMessages)
    ensures |list.categoryIds| > 0 ==>
      (list.emptyMessages == 1 <==> forall i :: 0 <= i < |list.categoryIds| ==> !Visible(categoryId, list.categoryIds[i]))
    ensures list.emptyMessages <= old(list.emptyMessages) + 1
  {
    list.ShowMatching(categoryId);
    var visible := list.VisibleCount();
    var itemCount := list.hidden.Length;
    if visible == 0 && itemCount > 0 {
      if list.emptyMessages == 0 {
        list.emptyMessages := 1;
      }
    } else if list.emptyMessages > 0 && visible > 0 {
      list.emptyMessages := list.emptyMessages - 1;
    }
  }
}
