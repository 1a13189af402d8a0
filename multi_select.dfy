/** The selection list of the multi-select component: the values the user has
    picked, in picking order, the handlers that replace that list, and the
    badge arithmetic of the trigger button. */
module MultiSelectList {
  import opened Wrappers
  import opened Seqs

  /** An entry of the `options` prop: what is shown and the value it stands for. */
  datatype SelectOption = SelectOption(labelText: string, value: string)

  /** `options.map((option) => option.value)`. */
  function ValuesOf(options: seq<SelectOption>): (r: seq<string>)
    ensures |r| == |options|
    ensures forall i | 0 <= i < |options| :: r[i] == options[i].value
  {
    seq(|options|, i requires 0 <= i < |options| => options[i].value)
  }

  /** The condition `value !== option`. */
  function Differs(v: string): string -> bool {
    (x: string) => x != v
  }

  /** `toggleOption`: a value the list has is removed, every occurrence of it;
      any other value is appended. */
  function Toggled(selected: seq<string>, v: string): (r: seq<string>)
    ensures v in selected ==> v !in r && Subseq(r, selected)
    ensures v in selected ==> forall x | x in selected && x != v :: x in r
    ensures v in selected ==> multiset(r) == multiset(selected)[v := 0]
    ensures v !in selected ==> r == selected + [v]
  {
    if v in selected then
      var r := Filter(selected, Differs(v));
      forall x ensures multiset(r)[x] == multiset(selected)[v := 0][x] {
        FilterCounts(selected, Differs(v), x);
      }
      r
    else selected + [v]
  }

  /** Toggling a value twice restores the list when the value was absent, or
      when it was the last entry and appeared nowhere else. */
  lemma ToggleTwiceRestores(selected: seq<string>, v: string)
    requires v !in selected || (|selected| > 0 && selected[|selected| - 1] == v && v !in selected[..|selected| - 1])
    ensures Toggled(Toggled(selected, v), v) == selected
  {
    if v !in selected {
      var once := selected + [v];
      assert once == selected + [v];
      FilterAppend(selected, [v], Differs(v));
      FilterKeepsAll(selected, Differs(v));
    } else {
      var front := selected[..|selected| - 1];
      assert selected == front + [v];
      FilterAppend(front, [v], Differs(v));
      FilterKeepsAll(front, Differs(v));
      assert Filter([v], Differs(v)) == [];
    }
  }

  /** A selected value that is not the last moves to the end when toggled
      twice, so toggling twice does not restore every duplicate-free list. */
  lemma ToggleTwiceMovesToEnd()
    ensures Toggled(Toggled(["a", "b"], "a"), "a") == ["b", "a"]
  {
    assert "a" in ["a", "b"];
    assert Filter(["a", "b"], Differs("a")) == ["b"] by {
      assert ["a", "b"][1..] == ["b"];
      assert ["b"][1..] == [];
    }
    assert "a" !in ["b"];
  }

  /** `Array.prototype.slice(0, n)`: the first `n` entries; a negative `n`
      counts from the end. */
  function SliceFront(s: seq<string>, n: int): (r: seq<string>)
    ensures |r| <= |s| && r == s[..|r|]
    ensures 0 <= n ==> |r| == if n <= |s| then n else |s|
    ensures n < 0 ==> |r| == if -n <= |s| then |s| + n else 0
  {
    if n < 0 then (if -n <= |s| then s[..|s| + n] else [])
    else if n <= |s| then s[..n] else s
  }

  /** Truncating twice to the same non-negative count truncates once. */
  lemma SliceFrontIdempotent(s: seq<string>, n: int)
    requires 0 <= n
    ensures SliceFront(SliceFront(s, n), n) == SliceFront(s, n)
  {
  }

  /** The `+ N more` badge: like every badge, shown only for a non-empty
      selection, and then only when the list is longer than `maxCount`, with
      `N` the number of values beyond it. */
  function MoreBadge(selected: seq<string>, maxCount: int): (r: Option<int>)
    ensures r.Some? <==> 0 < |selected| && |selected| > maxCount
    ensures r.Some? ==> r.value > 0 && r.value == |selected| - maxCount
  {
    if 0 < |selected| && |selected| > maxCount then Some(|selected| - maxCount) else None
  }

  /** With a non-negative `maxCount` the badges account for every value: the
      shown ones plus the number the last badge names. */
  lemma BadgesAccountForAll(selected: seq<string>, maxCount: int)
    requires 0 <= maxCount
    ensures var more := MoreBadge(selected, maxCount);
            |SliceFront(selected, maxCount)| + (if more.Some? then more.value else 0) == |selected|
    ensures |SliceFront(selected, maxCount)| <= maxCount
  {
  }

  /** `toggleAll`: clear when the list is as long as the options, otherwise
      select every option's value in option order. */
  function ToggledAll(selected: seq<string>, options: seq<SelectOption>): (r: seq<string>)
    ensures |selected| == |options| ==> r == []
    ensures |selected| != |options| ==> |r| == |options| && forall i | 0 <= i < |r| :: r[i] == options[i].value
  {
    if |selected| == |options| then [] else ValuesOf(options)
  }

  /** Selecting all and then toggling all again clears the list. */
  lemma ToggleAllTwiceClears(selected: seq<string>, options: seq<SelectOption>)
    requires |selected| != |options|
    ensures ToggledAll(ToggledAll(selected, options), options) == []
  {
  }

  /** The Backspace branch of `handleInputKeyDown` on an empty input: a copy
      of the list without its last entry (`pop` on an empty copy leaves it
      empty). */
  function Popped(selected: seq<string>): (r: seq<string>)
    ensures selected == [] ==> r == []
    ensures selected != [] ==> selected == r + [selected[|selected| - 1]]
  {
    if selected == [] then [] else selected[..|selected| - 1]
  }

  /** Backspace undoes a toggle that appended a value. */
  lemma BackspaceUndoesToggleOn(selected: seq<string>, v: string)
    requires v !in selected
    ensures Popped(Toggled(selected, v)) == selected
  {
    assert (selected + [v])[..|selected|] == selected;
  }

  /** The component's selection state. `notified` lists, oldest first, every
      list handed to `onValueChange`. */
  class MultiSelect {
    var selected: seq<string>
    var notified: seq<seq<string>>
    const options: seq<SelectOption>
    const maxCount: int

    /** Mounting: the selection starts as `defaultValue`. */
    constructor (options: seq<SelectOption>, defaultValue: seq<string>, maxCount: int)
      ensures this.options == options && this.maxCount == maxCount
      ensures selected == defaultValue && notified == []
    {
      this.options := options;
      this.maxCount := maxCount;
      selected := defaultValue;
      notified := [];
    }

    /** The badges the trigger button shows, one per value. */
    function VisibleBadges(): (r: seq<string>)
      reads this
      ensures |r| <= |selected| && r == selected[..|r|]
      ensures 0 <= maxCount ==> |r| <= maxCount
    {
      SliceFront(selected, maxCount)
    }

    method ToggleOption(v: string)
      modifies this
      ensures selected == Toggled(old(selected), v)
      ensures notified == old(notified) + [selected]
    {
      selected := Toggled(selected, v);
      notified := notified + [selected];
    }

    method HandleClear()
      modifies this
      ensures selected == []
      ensures notified == old(notified) + [[]]
    {
      selected := [];
      notified := notified + [[]];
    }

    method ClearExtraOptions()
      modifies this
      ensures selected == SliceFront(old(selected), maxCount)
      ensures notified == old(notified) + [selected]
    {
      selected := SliceFront(selected, maxCount);
      notified := notified + [selected];
    }

    method ToggleAll()
      modifies this
      ensures selected == ToggledAll(old(selected), options)
      ensures notified == old(notified) + [selected]
    {
      if |selected| == |options| {
        HandleClear();
      } else {
        selected := ValuesOf(options);
        notified := notified + [selected];
      }
    }

    /** Backspace with an empty input. */
    method HandleBackspace()
      modifies this
      ensures selected == Popped(old(selected))
      ensures notified == old(notified) + [selected]
    {
      selected := Popped(selected);
      notified := notified + [selected];
    }
  }
}
