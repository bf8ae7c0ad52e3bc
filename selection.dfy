/**
 * The multi-select logic both list views use: a row checkbox toggles one
 * id, and the "Select All" button either selects every listed id or, when
 * the selection is already as long as the list, clears it.
 */
module Selection {
  import opened Wrappers

  /** `prev.includes(id) ? prev.filter(x => x !== id) : [...prev, id]`. */
  function Toggle(selected: seq<string>, id: string): (r: seq<string>)
    ensures id in r <==> id !in selected
    ensures forall other :: other != id ==> (other in r <==> other in selected)
    ensures NoDup(selected) ==> NoDup(r)
  {
    if id in selected then RemoveAll(selected, id)
    else
      assert NoDup(selected) ==> NoDup(selected + [id]);
      selected + [id]
  }

  /** An id that was not selected is appended at the end, after every id
      already selected, and toggling it again restores the selection. */
  lemma {:induction false} ToggleTwice(selected: seq<string>, id: string)
    requires id !in selected
    ensures Toggle(selected, id) == selected + [id]
    ensures Toggle(Toggle(selected, id), id) == selected
  {
    assert id in selected + [id];
    RemoveAllConcat(selected, [id], id);
    assert [id][1..] == [];
    RemoveAllAbsent(selected, id);
  }

  /** The ids of a displayed list, in display order, and the selection the
      "Select All" button leaves. The test compares lengths only. */
  function SelectAll(selected: seq<string>, listed: seq<string>): (r: seq<string>)
    ensures |selected| == |listed| ==> r == []
    ensures |selected| != |listed| ==> r == listed
  {
    if |selected| == |listed| then [] else listed
  }

  /** Pressing "Select All" twice: when the first press selects, the
      second clears; with nothing listed and nothing selected the selection
      stays empty. */
  lemma SelectAllTwice(selected: seq<string>, listed: seq<string>)
    ensures |selected| != |listed| ==> SelectAll(SelectAll(selected, listed), listed) == []
    ensures selected == [] && listed == [] ==> SelectAll(selected, listed) == []
  {
  }
}
