/**
 * The synchronising client store (`src/stores/todosStore.ts`): an in-memory
 * task list and filter, the localStorage mirror that `addTodo`, `updateTodo`
 * and `deleteTodo` re-read and rewrite, and the whole-list push to the backend
 * after each of their mirror writes (`setTodos` writes both copies and pushes
 * nothing). The pushes are recorded, in order, in the ghost log `pushes`.
 */
module TodosStore {
  import opened TodoLists

  /** One `client.putTodoList(userId, todoList)` call. */
  datatype Put = Put(userId: string, todoList: seq<Todo>)

  class TodosStore {
    var memory: seq<Todo>
    var mirror: Slot
    var filterStatus: string
    ghost var pushes: seq<Put>

    /** Memory and mirror hold the same list. */
    predicate InSync()
      reads this
    {
      mirror == Stored(memory)
    }

    /**
     * Loading the store: the list is whatever the mirror parses to, and the
     * empty list when the slot is missing, blank, unparsable (the error is
     * caught) or holds `null`.
     */
    constructor (slot: Slot)
      ensures slot.Stored? ==> memory == slot.list
      ensures !slot.Stored? ==> memory == []
      ensures mirror == slot && filterStatus == "all" && pushes == []
    {
      memory := if slot.Stored? then slot.list else [];
      mirror := slot;
      filterStatus := "all";
      pushes := [];
    }

    method SetFilterStatus(status: string)
      modifies this
      ensures filterStatus == status
      ensures memory == old(memory) && mirror == old(mirror) && pushes == old(pushes)
    {
      filterStatus := status;
    }

    /**
     * Appends `todo` to memory whatever the mirror holds, then appends it to
     * the parsed mirror (or writes `[todo]` when there is none) and pushes the
     * mirror list just written.
     */
    method AddTodo(userId: string, todo: Todo) returns (outcome: Outcome)
      modifies this
      ensures memory == old(memory) + [todo]
      ensures filterStatus == old(filterStatus)
      ensures outcome == Threw <==> Unusable(old(mirror))
      ensures old(mirror).Stored? ==>
                mirror == Stored(old(mirror).list + [todo]) &&
                pushes == old(pushes) + [Put(userId, old(mirror).list + [todo])]
      ensures !Present(old(mirror)) ==>
                mirror == Stored([todo]) && pushes == old(pushes) + [Put(userId, [todo])]
      ensures outcome == Threw ==> mirror == old(mirror) && pushes == old(pushes)
      ensures old(InSync()) ==> InSync()
    {
      memory := memory + [todo];
      match mirror
      case Stored(list) =>
        var arr := list + [todo];
        mirror := Stored(arr);
        pushes := pushes + [Put(userId, arr)];
        outcome := Completed;
      case Missing =>
        mirror := Stored([todo]);
        pushes := pushes + [Put(userId, [todo])];
        outcome := Completed;
      case Blank =>
        mirror := Stored([todo]);
        pushes := pushes + [Put(userId, [todo])];
        outcome := Completed;
      case Corrupt =>
        outcome := Threw;
      case JsonNull =>
        outcome := Threw;
    }

    /**
     * With a mirror list present: the mirror's matching entries take the new
     * status and title, memory's matching entries are replaced whole, and the
     * mirror list is pushed. With no mirror nothing happens at all.
     */
    method UpdateTodo(userId: string, updated: Todo) returns (outcome: Outcome)
      modifies this
      ensures filterStatus == old(filterStatus)
      ensures outcome == Threw <==> Unusable(old(mirror))
      ensures old(mirror).Stored? ==>
                mirror == Stored(PatchMatching(old(mirror).list, updated)) &&
                memory == ReplaceMatching(old(memory), updated) &&
                pushes == old(pushes) + [Put(userId, mirror.list)]
      ensures !old(mirror).Stored? ==>
                memory == old(memory) && mirror == old(mirror) && pushes == old(pushes)
      ensures old(InSync()) ==> mirror.Stored? && SameExceptTime(mirror.list, memory)
    {
      outcome := if Unusable(mirror) then Threw else Completed;
      if mirror.Stored? {
        var arr := PatchEach(mirror.list, updated);
        mirror := Stored(arr);
        memory := ReplaceMatching(memory, updated);
        pushes := pushes + [Put(userId, arr)];
        UpdateCopiesAgree(old(memory), updated);
      }
    }

    /**
     * With a mirror list present: memory loses every entry with the id, the
     * mirror goes through the splice loop, and the mirror list is pushed.
     * With no mirror nothing happens at all.
     */
    method DeleteTodo(userId: string, id: string) returns (outcome: Outcome)
      modifies this
      ensures filterStatus == old(filterStatus)
      ensures outcome == Threw <==> Unusable(old(mirror))
      ensures old(mirror).Stored? ==>
                mirror == Stored(SpliceDelete(old(mirror).list, id)) &&
                memory == Without(old(memory), id) &&
                pushes == old(pushes) + [Put(userId, mirror.list)]
      ensures !old(mirror).Stored? ==>
                memory == old(memory) && mirror == old(mirror) && pushes == old(pushes)
      ensures old(InSync()) && UniqueIds(old(memory)) ==> InSync() && UniqueIds(memory)
    {
      outcome := if Unusable(mirror) then Threw else Completed;
      if mirror.Stored? {
        var arr := SpliceEach(mirror.list, id);
        mirror := Stored(arr);
        memory := Without(memory, id);
        pushes := pushes + [Put(userId, arr)];
        if old(InSync()) && UniqueIds(old(memory)) {
          SpliceDeleteIsFilter(old(memory), id);
          SubseqKeepsUnique(memory, old(memory));
        }
      }
    }

    /** Both copies become `list` verbatim; nothing is pushed. */
    method SetTodos(list: seq<Todo>)
      modifies this
      ensures memory == list && mirror == Stored(list)
      ensures filterStatus == old(filterStatus) && pushes == old(pushes)
      ensures InSync()
    {
      memory := list;
      mirror := Stored(list);
    }
  }
}
