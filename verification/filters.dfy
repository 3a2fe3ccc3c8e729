/** The cuisine checkboxes of client/src/components/FilterPage.tsx. */
module Filters {
  import opened Seqs
  import Search

  /** `appliedFilterHandler(value)`: a present value is removed (every copy),
      an absent one appended. */
  function Toggle(applied: seq<string>, value: string): (r: seq<string>)
    ensures value in r <==> value !in applied
    ensures value in applied ==> r == Search.RemoveFilter(applied, value)
    ensures value !in applied ==> r == applied + [value]
  {
    if value in applied then Search.RemoveFilter(applied, value) else applied + [value]
  }

  /** `resetAppliedFilter()`. */
  function Reset(): (r: seq<string>)
    ensures |r| == 0
    ensures forall o :: !Checked(r, o)
  {
    []
  }

  /** After a reset, ticking a box applies exactly that cuisine. */
  lemma ToggleAfterReset(value: string)
    ensures Toggle(Reset(), value) == [value]
    ensures forall o :: Checked(Toggle(Reset(), value), o) <==> o == value
  {
  }

  /** `checked={appliedFilter.includes(option.label)}`. */
  predicate Checked(applied: seq<string>, optionLabel: string) {
    optionLabel in applied
  }

  /** Toggling flips exactly the toggled box and leaves every other box as it
      was. */
  lemma ToggleFlipsOneBox(applied: seq<string>, value: string, other: string)
    requires other != value
    ensures Checked(Toggle(applied, value), value) == !Checked(applied, value)
    ensures Checked(Toggle(applied, value), other) == Checked(applied, other)
  {
    if value in applied && other in applied {
      var i :| 0 <= i < |applied| && applied[i] == other;
    }
  }

  /** Toggling keeps the list free of duplicates. */
  lemma ToggleKeepsNoDuplicates(applied: seq<string>, value: string)
    requires NoDuplicates(applied)
    ensures NoDuplicates(Toggle(applied, value))
  {
    if value in applied {
      SubsequenceNoDuplicates(Search.RemoveFilter(applied, value), applied);
    }
  }

  /** Toggling an absent value twice gives the original list back. */
  lemma ToggleTwiceRestores(applied: seq<string>, value: string)
    requires value !in applied
    ensures Toggle(Toggle(applied, value), value) == applied
  {
    var p := (f: string) => f != value;
    FilterConcat(applied, [value], p);
    FilterAll(applied, p);
    assert Filter([value], p) == [];
  }
}
