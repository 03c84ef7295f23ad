/**
 * The local-only client store (`src/app/store.ts`), the one the task item and
 * list views use: the same memory and mirror updates as the synchronising
 * store, with no push to the backend. Its fields are the only state it has,
 * so no operation can reach the network.
 */
module AppStore {
  import opened TodoLists

  class AppStore {
    var memory: seq<Todo>
    var mirror: Slot
    var filterStatus: string

    predicate InSync()
      reads this
    {
      mirror == Stored(memory)
    }

    /**
     * Loading the store. The initial parse has no `catch`: a blank or
     * unparsable slot makes loading fail, so a store exists only for the other
     * slots. `null` in the slot, like a missing slot, gives the empty list.
     */
    constructor (slot: Slot)
      requires !slot.Blank? && !slot.Corrupt?
      ensures slot.Stored? ==> memory == slot.list
      ensures !slot.Stored? ==> memory == []
      ensures mirror == slot && filterStatus == "all"
    {
      memory := if slot.Stored? then slot.list else [];
      mirror := slot;
      filterStatus := "all";
    }

    method SetFilterState(status: string)
      modifies this
      ensures filterStatus == status
      ensures memory == old(memory) && mirror == old(mirror)
    {
      filterStatus := status;
    }

    method AddTodo(todo: Todo) returns (outcome: Outcome)
      modifies this
      ensures memory == old(memory) + [todo]
      ensures filterStatus == old(filterStatus)
      ensures outcome == Threw <==> Unusable(old(mirror))
      ensures old(mirror).Stored? ==> mirror == Stored(old(mirror).list + [todo])
      ensures !Present(old(mirror)) ==> mirror == Stored([todo])
      ensures outcome == Threw ==> mirror == old(mirror)
      ensures old(InSync()) ==> InSync()
    {
      memory := memory + [todo];
      match mirror
      case Stored(list) =>
        mirror := Stored(list + [todo]);
        outcome := Completed;
      case Missing =>
        mirror := Stored([todo]);
        outcome := Completed;
      case Blank =>
        mirror := Stored([todo]);
        outcome := Completed;
      case Corrupt =>
        outcome := Threw;
      case JsonNull =>
        outcome := Threw;
    }

    method UpdateTodo(updated: Todo) returns (outcome: Outcome)
      modifies this
      ensures filterStatus == old(filterStatus)
      ensures outcome == Threw <==> Unusable(old(mirror))
      ensures old(mirror).Stored? ==>
                mirror == Stored(PatchMatching(old(mirror).list, updated)) &&
                memory == ReplaceMatching(old(memory), updated)
      ensures !old(mirror).Stored? ==> memory == old(memory) && mirror == old(mirror)
      ensures old(InSync()) ==> mirror.Stored? && SameExceptTime(mirror.list, memory)
    {
      outcome := if Unusable(mirror) then Threw else Completed;
      if mirror.Stored? {
        var arr := PatchEach(mirror.list, updated);
        mirror := Stored(arr);
        memory := ReplaceMatching(memory, updated);
        UpdateCopiesAgree(old(memory), updated);
      }
    }

    method DeleteTodo(id: string) returns (outcome: Outcome)
      modifies this
      ensures filterStatus == old(filterStatus)
      ensures outcome == Threw <==> Unusable(old(mirror))
      ensures old(mirror).Stored? ==>
                mirror == Stored(SpliceDelete(old(mirror).list, id)) &&
                memory == Without(old(memory), id)
      ensures !old(mirror).Stored? ==> memory == old(memory) && mirror == old(mirror)
      ensures old(InSync()) && UniqueIds(old(memory)) ==> InSync() && UniqueIds(memory)
    {
      outcome := if Unusable(mirror) then Threw else Completed;
      if mirror.Stored? {
        var arr := SpliceEach(mirror.list, id);
        mirror := Stored(arr);
        memory := Without(memory, id);
        if old(InSync()) && UniqueIds(old(memory)) {
          SpliceDeleteIsFilter(old(memory), id);
          SubseqKeepsUnique(memory, old(memory));
        }
      }
    }

    method SetTodos(list: seq<Todo>)
      modifies this
      ensures memory == list && mirror == Stored(list)
      ensures filterStatus == old(filterStatus)
      ensures InSync()
    {
      memory := list;
      mirror := Stored(list);
    }
  }
}
