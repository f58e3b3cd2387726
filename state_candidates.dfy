/** The choice list an objective state's editor offers for an automatic
    state-switch target: "None", then every other state of the parent objective
    in order, and how a chosen entry is turned back into a state ID. */
module StateCandidates {
  import opened Int32s
  import opened Labels

  /** One popup entry: the state's ID, the text shown, and the state's index in
      the objective's list of states. */
  datatype PopupSelectData = PopupSelectData(id: Int32, text: string, rootIndex: int)

  /** The leading entry that clears the reference. */
  const NoneEntry := PopupSelectData(-1, "None", -1)

  /** The entries for the states of `states` that are not `self` (compared by
      identity, not by ID), in list order; `ids` and `labels` hold each state's
      ID and stored label. */
  function Others<T(==)>(states: seq<T>, self: T, ids: seq<Int32>, labels: seq<string>): seq<PopupSelectData>
    requires |ids| == |states| && |labels| == |states|
    decreases |states|
  {
    if states == [] then []
    else
      var n := |states| - 1;
      Others(states[..n], self, ids[..n], labels[..n])
      + (if states[n] == self then [] else [PopupSelectData(ids[n], Healed(labels[n]), n)])
  }

  function Candidates<T(==)>(states: seq<T>, self: T, ids: seq<Int32>, labels: seq<string>): seq<PopupSelectData>
    requires |ids| == |states| && |labels| == |states|
  {
    [NoneEntry] + Others(states, self, ids, labels)
  }

  /** How many states of `states` are not `self`. */
  function CountOthers<T(==)>(states: seq<T>, self: T): nat
    decreases |states|
  {
    if states == [] then 0
    else CountOthers(states[..|states| - 1], self) + (if states[|states| - 1] == self then 0 else 1)
  }

  /** The popup only ever returns the index of one of its entries; with at most
      one state no popup is shown and the choice is irrelevant. */
  predicate ValidChoice<T(==)>(states: seq<T>, self: T, choice: int) {
    |states| <= 1 || choice <= CountOthers(states, self)
  }

  /** The initial popup selection: the last non-"None" entry whose ID is
      `target`, or 0 ("None") when there is none. */
  function LastMatch(c: seq<PopupSelectData>, target: Int32): int
    decreases |c|
  {
    if |c| <= 1 then 0
    else if c[|c| - 1].id == target then |c| - 1
    else LastMatch(c[..|c| - 1], target)
  }

  /** The state ID a popup choice stands for: -1 for "None" (or anything
      below it), otherwise the ID of the chosen entry. */
  function ChosenId(c: seq<PopupSelectData>, choice: int): Int32
    requires choice < |c|
  {
    if choice <= 0 then -1 else c[choice].id
  }

  /** The IDs of the states of `states` that are not `self`, in list order. */
  function OtherIds<T(==)>(states: seq<T>, self: T, ids: seq<Int32>): (r: seq<Int32>)
    requires |ids| == |states|
    ensures |r| == CountOthers(states, self)
    decreases |states|
  {
    if states == [] then []
    else
      var n := |states| - 1;
      OtherIds(states[..n], self, ids[..n]) + (if states[n] == self then [] else [ids[n]])
  }

  /** The new target ID that choosing `choice` in the editor produces: -1 when
      there is no popup or "None" is chosen, otherwise the ID of the
      `choice`-th other state. */
  function ChooseState<T(==)>(states: seq<T>, self: T, ids: seq<Int32>, choice: int): Int32
    requires |ids| == |states|
    requires ValidChoice(states, self, choice)
  {
    if |states| <= 1 || choice <= 0 then -1 else OtherIds(states, self, ids)[choice - 1]
  }

  /** `e` stands for a state of `states` other than `self`, with that state's ID
      and healed label. */
  predicate IsEntryFor<T(==)>(e: PopupSelectData, states: seq<T>, self: T, ids: seq<Int32>, labels: seq<string>)
    requires |ids| == |states| && |labels| == |states|
  {
    && 0 <= e.rootIndex < |states|
    && states[e.rootIndex] != self
    && e.id == ids[e.rootIndex]
    && e.text == Healed(labels[e.rootIndex])
  }

  /** Extending the list by state `i` appends its entry, if it is another state. */
  lemma OthersSnoc<T>(states: seq<T>, self: T, ids: seq<Int32>, labels: seq<string>, i: int)
    requires |ids| == |states| && |labels| == |states|
    requires 0 <= i < |states|
    ensures Others(states[..i + 1], self, ids[..i + 1], labels[..i + 1]) ==
      Others(states[..i], self, ids[..i], labels[..i])
      + (if states[i] == self then [] else [PopupSelectData(ids[i], Healed(labels[i]), i)])
  {
    assert states[..i + 1][..i] == states[..i];
    assert ids[..i + 1][..i] == ids[..i];
    assert labels[..i + 1][..i] == labels[..i];
  }

  /** Appending an entry makes it the selection exactly when it matches. */
  lemma LastMatchSnoc(c: seq<PopupSelectData>, e: PopupSelectData, target: Int32)
    requires c != []
    ensures LastMatch(c + [e], target) == if e.id == target then |c| else LastMatch(c, target)
  {
    assert (c + [e])[..|c|] == c;
  }

  /** `shown` is the popup as far as it is built after visiting the first `i` states. */
  predicate IsBuiltUpTo<T(==)>(shown: seq<PopupSelectData>, states: seq<T>, self: T, ids: seq<Int32>, labels: seq<string>, i: int)
    requires |ids| == |states| && |labels| == |states| && 0 <= i <= |states|
  {
    shown == [NoneEntry] + Others(states[..i], self, ids[..i], labels[..i])
  }

  /** A step of building the popup that meets the edited state adds nothing. */
  lemma BuiltPastSelf<T>(states: seq<T>, self: T, ids: seq<Int32>, labels: seq<string>, i: int,
                         shown: seq<PopupSelectData>)
    requires |ids| == |states| && |labels| == |states| && 0 <= i < |states| && states[i] == self
    requires IsBuiltUpTo(shown, states, self, ids, labels, i)
    ensures IsBuiltUpTo(shown, states, self, ids, labels, i + 1)
  {
    OthersSnoc(states, self, ids, labels, i);
  }

  /** A step of building the popup that meets another state appends its entry
      `e`, which becomes the selection exactly when it carries `target`. */
  lemma BuiltPastOther<T>(states: seq<T>, self: T, ids: seq<Int32>, labels: seq<string>, i: int,
                          shown: seq<PopupSelectData>, target: Int32, e: PopupSelectData)
    requires |ids| == |states| && |labels| == |states| && 0 <= i < |states| && states[i] != self
    requires IsBuiltUpTo(shown, states, self, ids, labels, i)
    requires e == PopupSelectData(ids[i], Healed(labels[i]), i)
    ensures IsBuiltUpTo(shown + [e], states, self, ids, labels, i + 1)
    ensures LastMatch(shown + [e], target) == if e.id == target then |shown| else LastMatch(shown, target)
  {
    OthersSnoc(states, self, ids, labels, i);
    LastMatchSnoc(shown, e, target);
  }

  /** Once every state is visited, the popup is complete. */
  lemma BuiltUpToEnd<T>(shown: seq<PopupSelectData>, states: seq<T>, self: T, ids: seq<Int32>, labels: seq<string>)
    requires |ids| == |states| && |labels| == |states|
    requires IsBuiltUpTo(shown, states, self, ids, labels, |states|)
    ensures shown == Candidates(states, self, ids, labels)
  {
    assert states[..|states|] == states && ids[..|states|] == ids && labels[..|states|] == labels;
  }

  /** There is one entry per other state. */
  lemma {:induction false} OthersLength<T>(states: seq<T>, self: T, ids: seq<Int32>, labels: seq<string>)
    requires |ids| == |states| && |labels| == |states|
    ensures |Others(states, self, ids, labels)| == CountOthers(states, self)
    decreases |states|
  {
    if states != [] {
      var n := |states| - 1;
      OthersLength(states[..n], self, ids[..n], labels[..n]);
    }
  }

  /** Every entry is a state other than `self`, with that state's ID and healed
      label, and the entries follow the order of the list. */
  lemma {:induction false} OthersAreOtherStatesInOrder<T>(states: seq<T>, self: T, ids: seq<Int32>, labels: seq<string>)
    requires |ids| == |states| && |labels| == |states|
    ensures forall k :: 0 <= k < |Others(states, self, ids, labels)| ==>
      IsEntryFor(Others(states, self, ids, labels)[k], states, self, ids, labels)
    ensures forall k, l :: 0 <= k < l < |Others(states, self, ids, labels)| ==>
      Others(states, self, ids, labels)[k].rootIndex < Others(states, self, ids, labels)[l].rootIndex
    decreases |states|
  {
    if states != [] {
      var n := |states| - 1;
      var sp, ip, lp := states[..n], ids[..n], labels[..n];
      OthersAreOtherStatesInOrder(sp, self, ip, lp);
      var prev := Others(sp, self, ip, lp);
      var o := Others(states, self, ids, labels);
      assert o == prev + (if states[n] == self then [] else [PopupSelectData(ids[n], Healed(labels[n]), n)]);
      forall k | 0 <= k < |prev| ensures o[k] == prev[k] && IsEntryFor(o[k], states, self, ids, labels) {
        assert IsEntryFor(prev[k], sp, self, ip, lp);
        var r := prev[k].rootIndex;
        assert states[r] == sp[r] && ids[r] == ip[r] && labels[r] == lp[r];
      }
    }
  }

  /** Every state of `states` other than `self` is the root of some entry of `o`. */
  predicate CoversOtherStates<T(==)>(o: seq<PopupSelectData>, states: seq<T>, self: T) {
    forall r :: 0 <= r < |states| && states[r] != self ==>
      exists k :: 0 <= k < |o| && o[k].rootIndex == r
  }

  /** Every state other than `self` has an entry. */
  lemma {:induction false} OthersCoverOtherStates<T>(states: seq<T>, self: T, ids: seq<Int32>, labels: seq<string>)
    requires |ids| == |states| && |labels| == |states|
    ensures CoversOtherStates(Others(states, self, ids, labels), states, self)
    decreases |states|
  {
    if states != [] {
      var n := |states| - 1;
      var sp, ip, lp := states[..n], ids[..n], labels[..n];
      OthersCoverOtherStates(sp, self, ip, lp);
      var prev := Others(sp, self, ip, lp);
      var o := Others(states, self, ids, labels);
      assert o == prev + (if states[n] == self then [] else [PopupSelectData(ids[n], Healed(labels[n]), n)]);
      forall r | 0 <= r < |states| && states[r] != self
        ensures exists k :: 0 <= k < |o| && o[k].rootIndex == r
      {
        if r < n {
          assert sp[r] == states[r];
          var k :| 0 <= k < |prev| && prev[k].rootIndex == r;
          assert o[k] == prev[k];
        } else {
          assert o[|prev|].rootIndex == r;
        }
      }
      assert CoversOtherStates(o, states, self);
    } else {
      assert |states| == 0;
    }
  }

  /** The popup has one entry more than there are other states. */
  lemma CandidatesLength<T>(states: seq<T>, self: T, ids: seq<Int32>, labels: seq<string>)
    requires |ids| == |states| && |labels| == |states|
    ensures |Candidates(states, self, ids, labels)| == 1 + CountOthers(states, self)
  {
    OthersLength(states, self, ids, labels);
  }

  /** "None" comes first; every further entry is another state, and every other
      state appears, in the order of the objective's list. */
  lemma CandidatesAreNoneThenOtherStates<T>(states: seq<T>, self: T, ids: seq<Int32>, labels: seq<string>)
    requires |ids| == |states| && |labels| == |states|
    ensures var c := Candidates(states, self, ids, labels);
      && c[0] == NoneEntry
      && (forall k :: 1 <= k < |c| ==> IsEntryFor(c[k], states, self, ids, labels))
      && (forall k, l :: 1 <= k < l < |c| ==> c[k].rootIndex < c[l].rootIndex)
      && (forall r :: 0 <= r < |states| && states[r] != self ==>
            exists k :: 1 <= k < |c| && c[k].rootIndex == r)
  {
    var c := Candidates(states, self, ids, labels);
    var o := Others(states, self, ids, labels);
    OthersAreOtherStatesInOrder(states, self, ids, labels);
    OthersCoverOtherStates(states, self, ids, labels);
    assert forall k :: 1 <= k < |c| ==> c[k] == o[k - 1];
    forall r | 0 <= r < |states| && states[r] != self
      ensures exists k :: 1 <= k < |c| && c[k].rootIndex == r
    {
      var k :| 0 <= k < |o| && o[k].rootIndex == r;
      assert c[k + 1].rootIndex == r;
    }
  }

  /** The initial selection is the last matching entry after "None", or "None"
      itself when no entry matches. */
  lemma {:induction false} LastMatchIsLastMatchingEntry(c: seq<PopupSelectData>, target: Int32)
    ensures var r := LastMatch(c, target);
      && (r == 0 || (1 <= r < |c| && c[r].id == target))
      && (forall k :: 1 <= k < |c| && r < k ==> c[k].id != target)
    decreases |c|
  {
    if |c| > 1 && c[|c| - 1].id != target {
      var p := c[..|c| - 1];
      LastMatchIsLastMatchingEntry(p, target);
      assert forall k :: 0 <= k < |p| ==> p[k] == c[k];
    }
  }

  /** Leaving the popup untouched keeps the current target when some other state
      carries that ID, and otherwise clears it to -1. */
  lemma UntouchedPopupKeepsTarget(c: seq<PopupSelectData>, target: Int32)
    requires c != []
    ensures LastMatch(c, target) < |c|
    ensures ChosenId(c, LastMatch(c, target)) ==
      if exists k :: 1 <= k < |c| && c[k].id == target then target else -1
  {
    LastMatchIsLastMatchingEntry(c, target);
  }

  /** The popup's entries carry the other states' IDs, whatever their labels. */
  lemma {:induction false} OthersCarryOtherIds<T>(states: seq<T>, self: T, ids: seq<Int32>, labels: seq<string>)
    requires |ids| == |states| && |labels| == |states|
    ensures |Others(states, self, ids, labels)| == |OtherIds(states, self, ids)|
    ensures forall k :: 0 <= k < |OtherIds(states, self, ids)| ==>
      Others(states, self, ids, labels)[k].id == OtherIds(states, self, ids)[k]
    decreases |states|
  {
    if states != [] {
      var n := |states| - 1;
      OthersCarryOtherIds(states[..n], self, ids[..n], labels[..n]);
    }
  }

  /** Resolving a popup choice through the popup's entries gives `ChooseState`:
      the labels shown play no part in the target chosen. */
  lemma PopupChoiceIsChooseState<T>(states: seq<T>, self: T, ids: seq<Int32>, labels: seq<string>, choice: int)
    requires |ids| == |states| && |labels| == |states|
    requires |states| > 1 && ValidChoice(states, self, choice)
    ensures choice < |Candidates(states, self, ids, labels)|
    ensures ChosenId(Candidates(states, self, ids, labels), choice) == ChooseState(states, self, ids, choice)
  {
    CandidatesLength(states, self, ids, labels);
    OthersCarryOtherIds(states, self, ids, labels);
    if choice > 0 {
      assert Candidates(states, self, ids, labels)[choice] == Others(states, self, ids, labels)[choice - 1];
    }
  }

  /** A choice yields -1 or the ID of a state other than the one edited, and
      every other state's ID can be chosen. */
  lemma ChoicesAreOtherStates<T>(states: seq<T>, self: T, ids: seq<Int32>)
    requires |ids| == |states|
    ensures forall choice :: ValidChoice(states, self, choice) ==>
      var r := ChooseState(states, self, ids, choice);
      r == -1 || exists j :: 0 <= j < |states| && states[j] != self && ids[j] == r
    ensures |states| > 1 ==>
      forall j :: 0 <= j < |states| && states[j] != self ==>
        exists choice :: ValidChoice(states, self, choice) && ChooseState(states, self, ids, choice) == ids[j]
  {
    var labels := seq(|states|, _ => "");
    CandidatesAreNoneThenOtherStates(states, self, ids, labels);
    CandidatesLength(states, self, ids, labels);
    var c := Candidates(states, self, ids, labels);
    forall choice | ValidChoice(states, self, choice)
      ensures var r := ChooseState(states, self, ids, choice);
        r == -1 || exists j :: 0 <= j < |states| && states[j] != self && ids[j] == r
    {
      if |states| > 1 && choice > 0 {
        PopupChoiceIsChooseState(states, self, ids, labels, choice);
        assert IsEntryFor(c[choice], states, self, ids, labels);
      }
    }
    if |states| > 1 {
      forall j | 0 <= j < |states| && states[j] != self
        ensures exists choice :: ValidChoice(states, self, choice) && ChooseState(states, self, ids, choice) == ids[j]
      {
        var k :| 1 <= k < |c| && c[k].rootIndex == j;
        PopupChoiceIsChooseState(states, self, ids, labels, k);
        assert ChooseState(states, self, ids, k) == ids[j];
      }
    }
  }

  /** Editing B among [A(1), B(2), C(3)] offers [None, A, C]. */
  lemma EditingMiddleStateOffersTheOtherTwo<T>(a: T, b: T, c: T, la: string, lb: string, lc: string)
    requires a != b && b != c && a != c
    ensures Candidates([a, b, c], b, [1, 2, 3], [la, lb, lc]) ==
      [NoneEntry, PopupSelectData(1, Healed(la), 0), PopupSelectData(3, Healed(lc), 2)]
  {
    var ids: seq<Int32>, labels := [1, 2, 3], [la, lb, lc];
    assert [a, b, c][..2] == [a, b] && [a, b][..1] == [a] && [a][..0] == [];
    assert ids[..2] == [1, 2] && ids[..2][..1] == [1] && ids[..2][..1][..0] == [];
    assert labels[..2] == [la, lb] && labels[..2][..1] == [la] && labels[..2][..1][..0] == [];
    assert Others([a], b, [1], [la]) == [PopupSelectData(1, Healed(la), 0)];
    assert Others([a, b], b, [1, 2], [la, lb]) == [PopupSelectData(1, Healed(la), 0)];
  }

  /** With a single state there is nothing to switch to. */
  lemma SingleStateOffersNothing<T>(s: T, id: Int32, choice: int)
    ensures ValidChoice([s], s, choice)
    ensures ChooseState([s], s, [id], choice) == -1
  {
  }
}
