/** Checkbox selection over a list of numeric ids, as written twice in the
    dashboard: `handleToggleRecipient`/`handleSelectAll` in the
    schedule-message dialog and `toggleLeadSelection`/`toggleAllLeads` in
    the leads table. The selection is an array of ids; "everything is
    selected" is decided by comparing counts, not contents. */
module Selection {
  import opened Seqs

  /** `sel.filter(x => x !== id)`. */
  function Without(sel: seq<int>, id: int): (r: seq<int>)
    ensures id !in r
    ensures forall x :: x != id ==> (x in r <==> x in sel)
    ensures IsSubseq(r, sel)
    ensures forall x :: multiset(r)[x] == if x != id then multiset(sel)[x] else 0
  {
    FilterIsSubseq(sel, x => x != id);
    FilterCounts(sel, x => x != id);
    Filter(sel, x => x != id)
  }

  /** `sel.includes(id) ? sel.filter(x => x !== id) : [...sel, id]`. */
  function Toggle(sel: seq<int>, id: int): (r: seq<int>)
    ensures id in r <==> id !in sel
    ensures forall x :: x != id ==> (x in r <==> x in sel)
    ensures id in sel ==> IsSubseq(r, sel) && |r| < |sel|
    ensures id in sel ==> r == Without(sel, id)
    ensures id !in sel ==> r == sel + [id]
  {
    if id in sel then
      FilterShrinks(sel, x => x != id, id);
      Without(sel, id)
    else sel + [id]
  }

  /** Toggling twice restores the selection as a set of ids; when the id
      was not selected it restores the very same array. */
  lemma {:induction false} ToggleTwice(sel: seq<int>, id: int)
    ensures Elems(Toggle(Toggle(sel, id), id)) == Elems(sel)
    ensures id !in sel ==> Toggle(Toggle(sel, id), id) == sel
  {
    if id !in sel {
      var once := sel + [id];
      assert Toggle(once, id) == Filter(once, x => x != id);
      FilterAppend(sel, [id], x => x != id);
      FilterKeepsAll(sel, x => x != id);
      assert Filter([id], x => x != id) == [];
    }
  }

  /** Toggling keeps the selection free of duplicate ids. */
  lemma ToggleNoDup(sel: seq<int>, id: int)
    requires NoDup(sel)
    ensures NoDup(Toggle(sel, id))
  {
    if id in sel {
      FilterNoDup(sel, x => x != id);
    } else {
      var r := sel + [id];
      forall i, j | 0 <= i < j < |r| ensures r[i] != r[j] {
        if j == |sel| { assert r[i] == sel[i]; }
      }
    }
  }

  /** Toggling an id of the list keeps the selection inside the list. */
  lemma ToggleStaysWithin(sel: seq<int>, id: int, all: seq<int>)
    requires forall x :: x in sel ==> x in all
    requires id in all
    ensures forall x :: x in Toggle(sel, id) ==> x in all
  {
  }

  /** The count test behind select-all, `sel.length === all.length`: the
      dialog's "Deselect All" label and the leads table's header box. For
      a selection made of distinct ids of a duplicate-free list it holds
      exactly when every id of the list is selected. */
  function AllChecked(sel: seq<int>, all: seq<int>): (r: bool)
    ensures NoDup(sel) && NoDup(all) && (forall x :: x in sel ==> x in all) ==>
      (r <==> forall x :: x in all ==> x in sel)
  {
    assert NoDup(sel) && NoDup(all) && (forall x :: x in sel ==> x in all) ==>
      (|sel| == |all| <==> forall x :: x in all ==> x in sel) by {
      if NoDup(sel) && NoDup(all) && (forall x :: x in sel ==> x in all) {
        CountsMeanEverySelected(sel, all);
      }
    }
    |sel| == |all|
  }

  /** `sel.length === all.length ? [] : all`. */
  function ToggleAll(sel: seq<int>, all: seq<int>): (r: seq<int>)
    ensures AllChecked(sel, all) ==> r == []
    ensures !AllChecked(sel, all) ==> r == all && AllChecked(r, all)
  {
    if |sel| == |all| then [] else all
  }

  /** With a duplicate-free selection drawn from a duplicate-free list,
      equal counts mean every id of the list is selected: the count
      comparison of the source is sound under the invariant toggling keeps. */
  lemma CountsMeanEverySelected(sel: seq<int>, all: seq<int>)
    requires NoDup(sel) && NoDup(all)
    requires forall x :: x in sel ==> x in all
    ensures |sel| == |all| <==> (forall x :: x in all ==> x in sel)
  {
    NoDupCard(sel);
    NoDupCard(all);
    assert Elems(sel) <= Elems(all);
    if |sel| == |all| {
      assert |Elems(sel)| == |Elems(all)|;
      SubsetSameSizeEqual(Elems(sel), Elems(all));
      forall x | x in all ensures x in sel {
        assert x in Elems(all);
      }
    }
    if forall x :: x in all ==> x in sel {
      assert Elems(all) <= Elems(sel) by {
        forall x | x in Elems(all) ensures x in Elems(sel) {
          assert x in all;
        }
      }
      assert Elems(sel) == Elems(all);
      assert |sel| == |Elems(sel)| == |Elems(all)| == |all|;
    }
  }

  lemma SubsetSameSizeEqual(a: set<int>, b: set<int>)
    requires a <= b && |a| == |b|
    ensures a == b
  {
    var d := b - a;
    assert a + d == b;
    assert a * d == {};
    assert |b| == |a| + |d|;
    assert d == {};
  }

  /** Without the invariant the count comparison can be fooled: a
      selection holding a stale id reads as "all selected". */
  lemma CountsCanMislead()
    ensures AllChecked([1, 9], [1, 2]) && 2 !in [1, 9]
  {
  }
}
