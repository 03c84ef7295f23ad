/**
 * The task list shared by both client stores: the task record, the
 * localStorage slot that mirrors the list, and the two ways each store
 * changes a list -- the pure `map`/`filter` used on the in-memory copy and
 * the in-place `forEach` loops used on the re-parsed mirror copy.
 */
module TodoLists {

  /** A task as the client stores it: four strings. */
  datatype Todo = Todo(id: string, title: string, status: string, time: string)

  /**
   * What `localStorage.getItem("todoList")` holds, as far as the stores can
   * tell apart: no item (`null`), the empty string, text that `JSON.parse`
   * rejects, the text `null`, or a JSON array of tasks. `JSON.stringify` and
   * `JSON.parse` are identity on task lists, so a stored list is kept as a list.
   */
  datatype Slot = Missing | Blank | Corrupt | JsonNull | Stored(list: seq<Todo>)

  /** `if (todoList)`: the slot's text is truthy, i.e. neither `null` nor `""`. */
  predicate Present(slot: Slot) {
    !slot.Missing? && !slot.Blank?
  }

  /**
   * Whether a mutator that re-reads a present slot gets a list back:
   * `JSON.parse` throws on corrupt text, and on the text `null` it returns
   * `null`, whose `push`/`forEach` then throws.
   */
  predicate Unusable(slot: Slot) {
    slot.Corrupt? || slot.JsonNull?
  }

  /** How a store mutator ends: normally, or by an exception escaping it. */
  datatype Outcome = Completed | Threw

  predicate UniqueIds(s: seq<Todo>) {
    forall i, j :: 0 <= i < j < |s| ==> s[i].id != s[j].id
  }

  predicate HasId(s: seq<Todo>, id: string) {
    exists i :: 0 <= i < |s| && s[i].id == id
  }

  /** `a` is `b` with some elements left out, order kept. */
  predicate Subseq(a: seq<Todo>, b: seq<Todo>)
    decreases |b|
  {
    a == [] || (b != [] && ((a[0] == b[0] && Subseq(a[1..], b[1..])) || Subseq(a, b[1..])))
  }

  /** Two lists that agree on every field except `time`, position by position. */
  predicate SameExceptTime(a: seq<Todo>, b: seq<Todo>) {
    |a| == |b| &&
    forall i :: 0 <= i < |a| ==> a[i].id == b[i].id && a[i].title == b[i].title && a[i].status == b[i].status
  }

  /** How many entries carry the id. */
  function CountId(s: seq<Todo>, id: string): nat {
    if s == [] then 0 else (if s[0].id == id then 1 else 0) + CountId(s[1..], id)
  }

  // ---------------------------------------------------------------------------
  // The in-memory copy: pure `map` and `filter`.
  // ---------------------------------------------------------------------------

  /**
   * `todoList.map(todo => todo.id === updated.id ? updated : todo)`:
   * every entry with the updated id is replaced by `updated` as a whole.
   */
  function ReplaceMatching(s: seq<Todo>, updated: Todo): (r: seq<Todo>)
    ensures |r| == |s|
    ensures forall i :: 0 <= i < |s| && s[i].id == updated.id ==> r[i] == updated
    ensures forall i :: 0 <= i < |s| && s[i].id != updated.id ==> r[i] == s[i]
  {
    if s == [] then []
    else [if s[0].id == updated.id then updated else s[0]] + ReplaceMatching(s[1..], updated)
  }

  /** `todoList.filter(todo => todo.id !== id)`: every entry with the id is removed. */
  function Without(s: seq<Todo>, id: string): (r: seq<Todo>)
    ensures Subseq(r, s)
    ensures forall i :: 0 <= i < |r| ==> r[i].id != id
    ensures forall i :: 0 <= i < |s| && s[i].id != id ==> s[i] in r
    ensures |r| == |s| - CountId(s, id)
  {
    if s == [] then []
    else if s[0].id == id then
      assert s == [s[0]] + s[1..];
      Without(s[1..], id)
    else
      assert s == [s[0]] + s[1..];
      [s[0]] + Without(s[1..], id)
  }

  // ---------------------------------------------------------------------------
  // The mirror copy: loops that change the parsed array in place.
  // ---------------------------------------------------------------------------

  /** The body of the update `forEach`: a matching entry takes the new status and title. */
  function Patched(t: Todo, updated: Todo): Todo {
    if t.id == updated.id then t.(status := updated.status, title := updated.title) else t
  }

  /**
   * The mirror after the update `forEach`: same length and order, every
   * entry keeps its id and time, matching entries take the updated status and
   * title, all others are untouched.
   */
  function PatchMatching(s: seq<Todo>, updated: Todo): (r: seq<Todo>)
    ensures |r| == |s|
    ensures forall i :: 0 <= i < |s| ==> r[i].id == s[i].id && r[i].time == s[i].time
    ensures forall i :: 0 <= i < |s| && s[i].id == updated.id ==>
              r[i].status == updated.status && r[i].title == updated.title
    ensures forall i :: 0 <= i < |s| && s[i].id != updated.id ==> r[i] == s[i]
  {
    if s == [] then [] else [Patched(s[0], updated)] + PatchMatching(s[1..], updated)
  }

  /**
   * The mirror after `forEach((todo, index) => { if (todo.id === id) splice(index, 1) })`.
   * Removing the entry at `index` shifts the next one into `index`, which the
   * iteration has already passed, so the entry right after a removed one is
   * kept without being looked at.
   */
  function SpliceDelete(s: seq<Todo>, id: string): (r: seq<Todo>)
    ensures Subseq(r, s)
    ensures |r| <= |s|
  {
    if s == [] then []
    else if s[0].id != id then [s[0]] + SpliceDelete(s[1..], id)
    else if |s| == 1 then []
    else
      assert s[1..][1..] == s[2..];
      [s[1]] + SpliceDelete(s[2..], id)
  }

  /** The update `forEach`, assigning `status` and `title` of each matching entry in place. */
  method PatchEach(list: seq<Todo>, updated: Todo) returns (arr: seq<Todo>)
    ensures arr == PatchMatching(list, updated)
  {
    arr := list;
    var k := 0;
    while k < |arr|
      invariant 0 <= k <= |arr| == |list|
      invariant forall i :: 0 <= i < k ==> arr[i] == PatchMatching(list, updated)[i]
      invariant forall i :: k <= i < |arr| ==> arr[i] == list[i]
    {
      if arr[k].id == updated.id {
        arr := arr[k := arr[k].(status := updated.status, title := updated.title)];
      }
      k := k + 1;
    }
  }

  function Min(a: int, b: int): int {
    if a < b then a else b
  }

  /**
   * The delete `forEach` with `splice` inside it. `forEach` fixes the number of
   * visits at the starting length and skips an index the array no longer has.
   */
  method SpliceEach(list: seq<Todo>, id: string) returns (arr: seq<Todo>)
    ensures arr == SpliceDelete(list, id)
  {
    arr := list;
    var len := |arr|;
    var k := 0;
    while k < len
      invariant 0 <= k <= len && |arr| <= len
      invariant arr[..Min(k, |arr|)] + SpliceDelete(arr[Min(k, |arr|)..], id) == SpliceDelete(list, id)
    {
      if k < |arr| && arr[k].id == id {
        SpliceStepRemove(arr, k, id);
        arr := arr[..k] + arr[k + 1..];
      } else if k < |arr| {
        SpliceStepKeep(arr, k, id);
      }
      k := k + 1;
    }
  }

  /** One visit of the splice loop that removes the entry at `k`. */
  lemma SpliceStepRemove(arr: seq<Todo>, k: nat, id: string)
    requires k < |arr| && arr[k].id == id
    ensures var next := arr[..k] + arr[k + 1..];
      next[..Min(k + 1, |next|)] + SpliceDelete(next[Min(k + 1, |next|)..], id) ==
      arr[..k] + SpliceDelete(arr[k..], id)
  {
    var next := arr[..k] + arr[k + 1..];
    var t := arr[k..];
    assert t[0] == arr[k] && t[1..] == arr[k + 1..];
    if k + 1 < |arr| {
      var rest := SpliceDelete(arr[k + 2..], id);
      assert t[1] == arr[k + 1] && t[2..] == arr[k + 2..];
      assert SpliceDelete(t, id) == [arr[k + 1]] + rest;
      assert |next| == |arr| - 1 && Min(k + 1, |next|) == k + 1;
      assert next[..k + 1] == arr[..k] + [arr[k + 1]];
      assert next[k + 1..] == arr[k + 2..];
      assert (arr[..k] + [arr[k + 1]]) + rest == arr[..k] + ([arr[k + 1]] + rest);
    } else {
      assert t == [arr[k]];
      assert SpliceDelete(t, id) == [];
      assert next == arr[..k] && Min(k + 1, |next|) == k;
      assert next[..k] == arr[..k] && next[k..] == [];
    }
  }

  /** One visit of the splice loop that keeps the entry at `k`. */
  lemma SpliceStepKeep(arr: seq<Todo>, k: nat, id: string)
    requires k < |arr| && arr[k].id != id
    ensures arr[..k + 1] + SpliceDelete(arr[k + 1..], id) == arr[..k] + SpliceDelete(arr[k..], id)
  {
    var t, rest := arr[k..], SpliceDelete(arr[k + 1..], id);
    assert t[0] == arr[k] && t[1..] == arr[k + 1..];
    assert SpliceDelete(t, id) == [arr[k]] + rest;
    assert arr[..k + 1] == arr[..k] + [arr[k]];
    assert (arr[..k] + [arr[k]]) + rest == arr[..k] + ([arr[k]] + rest);
  }

  // ---------------------------------------------------------------------------
  // How the two copies relate.
  // ---------------------------------------------------------------------------

  /** A subsequence with no entry carrying the id is at most as long as the entries without it. */
  lemma {:induction false} AvoidingSubseqBound(r: seq<Todo>, t: seq<Todo>, id: string)
    requires Subseq(r, t) && forall i :: 0 <= i < |r| ==> r[i].id != id
    ensures |r| <= |t| - CountId(t, id)
  {
    if r == [] {
      CountIdBound(t, id);
    } else {
      assert forall i :: 0 <= i < |r[1..]| ==> r[1..][i] == r[i + 1];
      if r[0] == t[0] && Subseq(r[1..], t[1..]) {
        AvoidingSubseqBound(r[1..], t[1..], id);
      } else {
        AvoidingSubseqBound(r, t[1..], id);
      }
    }
  }

  lemma {:induction false} CountIdBound(s: seq<Todo>, id: string)
    ensures CountId(s, id) <= |s|
  {
    if s != [] {
      CountIdBound(s[1..], id);
    }
  }

  /**
   * `Without`'s contract pins its result: the only subsequence with no entry
   * carrying the id and with one entry per other entry of the list is the filter.
   */
  lemma {:induction false} WithoutDetermined(s: seq<Todo>, r: seq<Todo>, id: string)
    requires Subseq(r, s) && forall i :: 0 <= i < |r| ==> r[i].id != id
    requires |r| == |s| - CountId(s, id)
    ensures r == Without(s, id)
  {
    if r != [] {
      assert forall i :: 0 <= i < |r[1..]| ==> r[1..][i] == r[i + 1];
      if s[0].id == id {
        assert r[0] != s[0];
        WithoutDetermined(s[1..], r, id);
      } else if r[0] == s[0] && Subseq(r[1..], s[1..]) {
        WithoutDetermined(s[1..], r[1..], id);
        assert r == [r[0]] + r[1..];
      } else {
        AvoidingSubseqBound(r, s[1..], id);
        assert false;
      }
    }
  }

  /** Filtering out an id nobody has changes nothing. */
  lemma {:induction false} WithoutAbsent(s: seq<Todo>, id: string)
    requires !HasId(s, id)
    ensures Without(s, id) == s
  {
    if s != [] {
      assert !HasId(s[1..], id) by {
        forall i | 0 <= i < |s[1..]| ensures s[1..][i].id != id {
          assert s[1..][i] == s[i + 1];
        }
      }
      WithoutAbsent(s[1..], id);
      assert s == [s[0]] + s[1..];
    }
  }

  /** The splice loop changes nothing when no entry has the id. */
  lemma {:induction false} SpliceDeleteAbsent(s: seq<Todo>, id: string)
    requires !HasId(s, id)
    ensures SpliceDelete(s, id) == s
  {
    if s != [] {
      assert s[0].id != id;
      assert !HasId(s[1..], id) by {
        forall i | 0 <= i < |s[1..]| ensures s[1..][i].id != id {
          assert s[1..][i] == s[i + 1];
        }
      }
      SpliceDeleteAbsent(s[1..], id);
      assert s == [s[0]] + s[1..];
    }
  }

  lemma UniqueTail(s: seq<Todo>)
    requires s != [] && UniqueIds(s)
    ensures UniqueIds(s[1..]) && !HasId(s[1..], s[0].id)
  {
    forall i | 0 <= i < |s[1..]| ensures s[1..][i].id != s[0].id {
      assert s[1..][i] == s[i + 1];
    }
  }

  /**
   * When ids are unique, the mirror's splice loop removes exactly what the
   * memory's `filter` removes, so both copies lose the same entry.
   */
  lemma {:induction false} SpliceDeleteIsFilter(s: seq<Todo>, id: string)
    requires UniqueIds(s)
    ensures SpliceDelete(s, id) == Without(s, id)
  {
    if s != [] {
      UniqueTail(s);
      if s[0].id != id {
        SpliceDeleteIsFilter(s[1..], id);
      } else {
        WithoutAbsent(s[1..], id);
        if |s| > 1 {
          UniqueTail(s[1..]);
          assert s[1..][1..] == s[2..];
          SpliceDeleteAbsent(s[2..], id) by {
            forall i | 0 <= i < |s[2..]| ensures s[2..][i].id != id {
              assert s[2..][i] == s[1..][i + 1];
            }
          }
          assert s[1..] == [s[1]] + s[2..];
        }
      }
    }
  }

  /**
   * With unique ids a present id is deleted from the mirror exactly once, and
   * the mirror is unchanged when it is absent.
   */
  lemma {:induction false} SpliceDeleteRemovesOne(s: seq<Todo>, id: string)
    requires UniqueIds(s)
    ensures HasId(s, id) ==> |SpliceDelete(s, id)| == |s| - 1
    ensures !HasId(s, id) ==> SpliceDelete(s, id) == s
  {
    if HasId(s, id) {
      SpliceDeleteIsFilter(s, id);
      WithoutUniqueLength(s, id);
    } else {
      SpliceDeleteAbsent(s, id);
    }
  }

  /** With unique ids, `filter` removes one entry when the id is present and none otherwise. */
  lemma {:induction false} WithoutUniqueLength(s: seq<Todo>, id: string)
    requires UniqueIds(s)
    ensures |Without(s, id)| == if HasId(s, id) then |s| - 1 else |s|
  {
    if s != [] {
      UniqueTail(s);
      if s[0].id == id {
        WithoutAbsent(s[1..], id);
      } else {
        WithoutUniqueLength(s[1..], id);
        assert HasId(s, id) <==> HasId(s[1..], id) by {
          if HasId(s, id) {
            var i :| 0 <= i < |s| && s[i].id == id;
            assert s[1..][i - 1] == s[i];
          }
          if HasId(s[1..], id) {
            var i :| 0 <= i < |s[1..]| && s[1..][i].id == id;
            assert s[i + 1] == s[1..][i];
          }
        }
      }
    }
  }

  /**
   * With a duplicated id the two copies part ways: `filter` drops both
   * entries, the splice loop only the first.
   */
  lemma SpliceDeleteKeepsAdjacentDuplicate(t: Todo)
    ensures Without([t, t], t.id) == []
    ensures SpliceDelete([t, t], t.id) == [t]
  {
    assert [t, t][1..] == [t];
    assert [t, t][2..] == [];
  }

  /** Deleting an id twice from memory is the same as deleting it once. */
  lemma {:induction false} WithoutIdempotent(s: seq<Todo>, id: string)
    ensures Without(Without(s, id), id) == Without(s, id)
  {
    WithoutAbsent(Without(s, id), id);
  }

  /**
   * The update leaves the two copies agreeing on everything but `time`:
   * memory takes the updated entry whole, the mirror keeps each match's time.
   * Where the matches' time already equals the updated one, they are equal.
   */
  lemma UpdateCopiesAgree(s: seq<Todo>, updated: Todo)
    ensures SameExceptTime(PatchMatching(s, updated), ReplaceMatching(s, updated))
    ensures (forall i :: 0 <= i < |s| && s[i].id == updated.id ==> s[i].time == updated.time) ==>
              PatchMatching(s, updated) == ReplaceMatching(s, updated)
  {
    var p, q := PatchMatching(s, updated), ReplaceMatching(s, updated);
    if forall i :: 0 <= i < |s| && s[i].id == updated.id ==> s[i].time == updated.time {
      forall i | 0 <= i < |s| ensures p[i] == q[i] {
        if s[i].id == updated.id {
          assert p[i] == Todo(updated.id, updated.title, updated.status, updated.time);
        }
      }
    }
  }

  /** Updating an id nobody has leaves both copies as they were. */
  lemma UpdateAbsent(s: seq<Todo>, updated: Todo)
    requires !HasId(s, updated.id)
    ensures PatchMatching(s, updated) == s
    ensures ReplaceMatching(s, updated) == s
  {
  }

  /** Deleting from a list with unique ids keeps its ids unique. */
  lemma {:induction false} SubseqKeepsUnique(a: seq<Todo>, b: seq<Todo>)
    requires Subseq(a, b) && UniqueIds(b)
    ensures UniqueIds(a)
  {
    if a != [] && b != [] {
      UniqueTail(b);
      if a[0] == b[0] && Subseq(a[1..], b[1..]) {
        SubseqKeepsUnique(a[1..], b[1..]);
        SubseqMembers(a[1..], b[1..]);
        forall j | 0 < j < |a| ensures a[0].id != a[j].id {
          assert a[1..][j - 1] == a[j];
          assert a[j] in b[1..];
          var m :| 0 <= m < |b[1..]| && b[1..][m] == a[j];
        }
        forall i, j | 0 <= i < j < |a| ensures a[i].id != a[j].id {
          if i > 0 { assert a[1..][i - 1] == a[i] && a[1..][j - 1] == a[j]; }
        }
      } else {
        SubseqKeepsUnique(a, b[1..]);
      }
    }
  }

  lemma {:induction false} SubseqMembers(a: seq<Todo>, b: seq<Todo>)
    requires Subseq(a, b)
    ensures forall t :: t in a ==> t in b
  {
    if a != [] && b != [] {
      if a[0] == b[0] && Subseq(a[1..], b[1..]) {
        SubseqMembers(a[1..], b[1..]);
        assert forall t :: t in a ==> t == a[0] || t in a[1..];
      } else {
        SubseqMembers(a, b[1..]);
      }
    }
  }
}
