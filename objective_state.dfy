/** One state an Objective can take (Active, Complete or Fail): its texts and
    their translation IDs, the ActionList run on entry, the sub-objective
    category it links to and the states it switches to automatically. */
module ObjectiveStates {
  import opened Int32s
  import opened Labels
  import opened StateIds
  import opened StateCandidates

  /** The kind of a state. `UnlistedStateType` stands for any value outside the
      three named members (a C# enum accepts any cast integer). */
  datatype ObjectiveStateType = Active | Complete | Fail | UnlistedStateType

  /** Which states an inventory box shows; `UnlistedDisplayType` stands for any
      value outside the four named members. */
  datatype ObjectiveDisplayType = All | ActiveOnly | CompleteOnly | FailedOnly | UnlistedDisplayType

  /** The text category every translatable text of a state is exported under. */
  datatype TextType = ObjectiveText

  /** An ActionList asset; the model only keeps the reference. */
  class ActionListAsset { }

  /** The parent objective, as far as a state's editor uses it: its states in
      order and its own category ID. */
  datatype Objective = Objective(states: seq<ObjectiveState>, binID: Int32)

  /** What each editor widget drawn by `ShowGUI` hands back. */
  datatype EditorInput = EditorInput(
    labelText: string,
    stateType: ObjectiveStateType,
    description: string,
    actionListOnEnter: ActionListAsset?,
    linkedCategoryID: Int32,
    autoStartSubObjectives: bool,
    allSubObsCompleteChoice: int,
    anySubObsCompleteChoice: int,
    allSubObsFailChoice: int,
    anySubObsFailChoice: int)

  /** The switch behind `DisplayTypeMatches`. */
  function DisplayTypeAdmits(displayType: ObjectiveDisplayType, stateType: ObjectiveStateType): bool {
    match displayType
    case All => true
    case ActiveOnly => stateType == Active
    case CompleteOnly => stateType == Complete
    case FailedOnly => stateType == Fail
    case UnlistedDisplayType => false
  }

  /** The `All` filter shows a state whatever its type. */
  lemma AllAdmitsEveryStateType(stateType: ObjectiveStateType)
    ensures DisplayTypeAdmits(All, stateType)
  {
  }

  /** Each of the three "only" filters shows exactly one state type. */
  lemma EachOnlyFilterAdmitsExactlyOneType(displayType: ObjectiveDisplayType)
    requires displayType == ActiveOnly || displayType == CompleteOnly || displayType == FailedOnly
    ensures exists t :: DisplayTypeAdmits(displayType, t) && forall u :: DisplayTypeAdmits(displayType, u) ==> u == t
  {
    var t := match displayType
      case ActiveOnly => Active
      case CompleteOnly => Complete
      case _ => Fail;
    assert DisplayTypeAdmits(displayType, t);
  }

  /** Each "only" filter shows its own state type and no other: ActiveOnly the
      Active states, CompleteOnly the Complete ones and FailedOnly the Fail ones. */
  lemma OnlyFiltersAdmitTheirOwnType(stateType: ObjectiveStateType)
    ensures DisplayTypeAdmits(ActiveOnly, stateType) <==> stateType == Active
    ensures DisplayTypeAdmits(CompleteOnly, stateType) <==> stateType == Complete
    ensures DisplayTypeAdmits(FailedOnly, stateType) <==> stateType == Fail
  {
  }

  /** An unlisted filter shows nothing, and an unlisted state type is shown by `All` only. */
  lemma UnlistedValuesMatchNothing(displayType: ObjectiveDisplayType, stateType: ObjectiveStateType)
    ensures !DisplayTypeAdmits(UnlistedDisplayType, stateType)
    ensures DisplayTypeAdmits(displayType, UnlistedStateType) <==> displayType == All
  {
  }

  /** The IDs of `states`, in order. */
  function IdsOf(states: seq<ObjectiveState>): (ids: seq<Int32>)
    ensures |ids| == |states|
    ensures forall j :: 0 <= j < |states| ==> ids[j] == states[j].ID
    decreases |states|
  {
    if states == [] then [] else [states[0].ID] + IdsOf(states[1..])
  }

  /** The stored labels of `states`, in order. */
  function LabelsOf(states: seq<ObjectiveState>): (labels: seq<string>)
    reads states`labelText
    ensures |labels| == |states|
    ensures forall j :: 0 <= j < |states| ==> labels[j] == states[j].labelText
    decreases |states|
  {
    if states == [] then [] else [states[0].labelText] + LabelsOf(states[1..])
  }

  class ObjectiveState {
    /** A unique identifier within the parent objective; only the constructors set it. */
    const ID: Int32
    /** The stored label (C# `label`); read it through `Label`. */
    var labelText: string
    var labelLineID: Int32
    var description: string
    var descriptionLineID: Int32
    var stateType: ObjectiveStateType
    var actionListOnEnter: ActionListAsset?
    var autoStartSubObjectives: bool
    // Optional references, each stored as its value plus one so that 0 means unset.
    var autoStateIDOnAllSubObsCompletePlusOne: Int32
    var autoStateIDOnAnySubObsCompletePlusOne: Int32
    var autoStateIDOnAllSubObsFailPlusOne: Int32
    var autoStateIDOnAnySubObsFailPlusOne: Int32
    var linkedCategoryIDPlusOne: Int32

    /** What both constructors leave behind: no translation IDs, no ActionList,
        no sub-objective category and no automatic switches. */
    predicate HasFreshDefaults()
      reads this
    {
      && labelLineID == -1
      && descriptionLineID == -1
      && description == []
      && actionListOnEnter == null
      && !autoStartSubObjectives
      && LinkedCategoryID() == -1
      && AutoStateIDOnAllSubObsComplete() == -1
      && AutoStateIDOnAnySubObsComplete() == -1
      && AutoStateIDOnAllSubObsFail() == -1
      && AutoStateIDOnAnySubObsFail() == -1
    }

    /** A state with a given ID, label and type. */
    constructor (id: Int32, labelText: string, stateType: ObjectiveStateType)
      ensures ID == id && this.labelText == labelText && this.stateType == stateType
      ensures HasFreshDefaults()
    {
      ID := id;
      this.stateType := stateType;
      this.labelText := labelText;
      labelLineID := -1;
      description := "";
      descriptionLineID := -1;
      actionListOnEnter := null;
      linkedCategoryIDPlusOne := 0;
      autoStartSubObjectives := false;
      // the field initialisers of the four automatic-switch references
      autoStateIDOnAllSubObsCompletePlusOne := 0;
      autoStateIDOnAnySubObsCompletePlusOne := 0;
      autoStateIDOnAllSubObsFailPlusOne := 0;
      autoStateIDOnAnySubObsFailPlusOne := 0;
    }

    /** A new Active state whose ID is picked by one pass over the IDs already
        in use. The ID is always within [0, number of IDs]; it is guaranteed
        free only when those IDs are strictly ascending. */
    constructor FromIds(idArray: array<Int32>)
      requires idArray.Length <= MaxValue
      ensures ID as int == ScanId(0, idArray[..])
      ensures 0 <= ID as int <= idArray.Length
      ensures StrictlyAscending(idArray[..]) ==> IsLeastFreeId(ID as int, idArray[..])
      ensures stateType == Active && labelText == []
      ensures HasFreshDefaults()
    {
      stateType := Active;
      labelText := "";
      labelLineID := -1;
      description := "";
      descriptionLineID := -1;
      actionListOnEnter := null;
      linkedCategoryIDPlusOne := 0;
      autoStartSubObjectives := false;
      autoStateIDOnAllSubObsCompletePlusOne := 0;
      autoStateIDOnAnySubObsCompletePlusOne := 0;
      autoStateIDOnAllSubObsFailPlusOne := 0;
      autoStateIDOnAnySubObsFailPlusOne := 0;

      var id: Int32 := 0;
      var i := 0;
      while i < idArray.Length
        invariant 0 <= i <= idArray.Length
        invariant 0 <= id as int <= i
        invariant ScanId(id as int, idArray[i..]) == ScanId(0, idArray[..])
      {
        assert idArray[i..] == [idArray[i]] + idArray[i + 1..];
        if id == idArray[i] {
          id := id + 1;
        }
        i := i + 1;
      }
      ID := id;
      if StrictlyAscending(idArray[..]) {
        PickedIdIsLeastFreeWhenSorted(idArray[..]);
      }
    }

    /** The `DisplayTypeMatches` filter of an inventory box. */
    function DisplayTypeMatches(displayType: ObjectiveDisplayType): bool
      reads this
    {
      DisplayTypeAdmits(displayType, stateType)
    }

    /** The `Label` getter: an empty label is replaced by "(Untitled)", stored,
        and returned; a non-empty one is returned as it is. */
    method Label() returns (r: string)
      modifies this`labelText
      ensures r == labelText && r == Healed(old(labelText)) && r != []
      ensures old(labelText) != [] ==> labelText == old(labelText)
      ensures old(labelText) == [] ==> labelText == Untitled
    {
      if labelText == [] {
        labelText := Untitled;
      }
      r := labelText;
    }

    /** The `Label` setter. */
    method SetLabel(value: string)
      modifies this`labelText
      ensures labelText == value
    {
      labelText := value;
    }

    function LinkedCategoryID(): Int32
      reads this`linkedCategoryIDPlusOne
    {
      WrappingDecrement(linkedCategoryIDPlusOne)
    }

    /** Stores `value` plus one; -1 clears the reference (stored 0). */
    method SetLinkedCategoryID(value: Int32)
      modifies this`linkedCategoryIDPlusOne
      ensures LinkedCategoryID() == value
      ensures linkedCategoryIDPlusOne == 0 <==> value == -1
    {
      linkedCategoryIDPlusOne := WrappingIncrement(value);
    }

    function AutoStateIDOnAllSubObsComplete(): Int32
      reads this`autoStateIDOnAllSubObsCompletePlusOne
    {
      WrappingDecrement(autoStateIDOnAllSubObsCompletePlusOne)
    }

    method SetAutoStateIDOnAllSubObsComplete(value: Int32)
      modifies this`autoStateIDOnAllSubObsCompletePlusOne
      ensures AutoStateIDOnAllSubObsComplete() == value
      ensures autoStateIDOnAllSubObsCompletePlusOne == 0 <==> value == -1
    {
      autoStateIDOnAllSubObsCompletePlusOne := WrappingIncrement(value);
    }

    function AutoStateIDOnAnySubObsComplete(): Int32
      reads this`autoStateIDOnAnySubObsCompletePlusOne
    {
      WrappingDecrement(autoStateIDOnAnySubObsCompletePlusOne)
    }

    method SetAutoStateIDOnAnySubObsComplete(value: Int32)
      modifies this`autoStateIDOnAnySubObsCompletePlusOne
      ensures AutoStateIDOnAnySubObsComplete() == value
      ensures autoStateIDOnAnySubObsCompletePlusOne == 0 <==> value == -1
    {
      autoStateIDOnAnySubObsCompletePlusOne := WrappingIncrement(value);
    }

    function AutoStateIDOnAllSubObsFail(): Int32
      reads this`autoStateIDOnAllSubObsFailPlusOne
    {
      WrappingDecrement(autoStateIDOnAllSubObsFailPlusOne)
    }

    method SetAutoStateIDOnAllSubObsFail(value: Int32)
      modifies this`autoStateIDOnAllSubObsFailPlusOne
      ensures AutoStateIDOnAllSubObsFail() == value
      ensures autoStateIDOnAllSubObsFailPlusOne == 0 <==> value == -1
    {
      autoStateIDOnAllSubObsFailPlusOne := WrappingIncrement(value);
    }

    function AutoStateIDOnAnySubObsFail(): Int32
      reads this`autoStateIDOnAnySubObsFailPlusOne
    {
      WrappingDecrement(autoStateIDOnAnySubObsFailPlusOne)
    }

    method SetAutoStateIDOnAnySubObsFail(value: Int32)
      modifies this`autoStateIDOnAnySubObsFailPlusOne
      ensures AutoStateIDOnAnySubObsFail() == value
      ensures autoStateIDOnAnySubObsFailPlusOne == 0 <==> value == -1
    {
      autoStateIDOnAnySubObsFailPlusOne := WrappingIncrement(value);
    }

    // Translatable texts: slot 0 is the label, every other index the description.

    function GetTranslatableString(index: int): string
      reads this
    {
      if index == 0 then labelText else description
    }

    function GetTranslationID(index: int): Int32
      reads this
    {
      if index == 0 then labelLineID else descriptionLineID
    }

    function GetTranslationType(index: int): TextType {
      ObjectiveText
    }

    method UpdateTranslatableString(index: int, updatedText: string)
      modifies this`labelText, this`description
      ensures GetTranslatableString(index) == updatedText
      ensures index == 0 ==> description == old(description)
      ensures index != 0 ==> labelText == old(labelText)
    {
      if index == 0 {
        labelText := updatedText;
      } else {
        description := updatedText;
      }
    }

    /** Two slots: the first is the label, the last the description. */
    function GetNumTranslatables(): (n: int)
      reads this
      ensures n == 2
      ensures GetTranslatableString(0) == labelText && GetTranslatableString(n - 1) == description
      ensures GetTranslationID(0) == labelLineID && GetTranslationID(n - 1) == descriptionLineID
    {
      2
    }

    /** A slot has a translation exactly when its translation ID is set. */
    function HasExistingTranslation(index: int): (r: bool)
      reads this
      ensures r <==> GetTranslationID(index) > -1
    {
      if index == 0 then labelLineID > -1 else descriptionLineID > -1
    }

    method SetTranslationID(index: int, lineID: Int32)
      modifies this`labelLineID, this`descriptionLineID
      ensures GetTranslationID(index) == lineID
      ensures HasExistingTranslation(index) <==> lineID > -1
      ensures index == 0 ==> descriptionLineID == old(descriptionLineID)
      ensures index != 0 ==> labelLineID == old(labelLineID)
    {
      if index == 0 {
        labelLineID := lineID;
      } else {
        descriptionLineID := lineID;
      }
    }

    function GetOwner(index: int): string {
      ""
    }

    function OwnerIsPlayer(index: int): bool {
      false
    }

    /** A slot can be translated exactly when its text is not empty. */
    function CanTranslate(index: int): (r: bool)
      reads this
      ensures r <==> GetTranslatableString(index) != []
    {
      if index == 0 then labelText != [] else description != []
    }

    /** A state may not take its parent objective's own category as its
        sub-objective category: such a link is cleared, with a warning. */
    method ValidateLinkedCategory(objective: Objective) returns (warned: bool)
      modifies this`linkedCategoryIDPlusOne
      ensures warned <==> old(LinkedCategoryID()) >= 0 && old(LinkedCategoryID()) == objective.binID
      ensures LinkedCategoryID() == if warned then -1 else old(LinkedCategoryID())
      ensures LinkedCategoryID() < 0 || LinkedCategoryID() != objective.binID
    {
      warned := LinkedCategoryID() >= 0 && LinkedCategoryID() == objective.binID;
      if warned {
        SetLinkedCategoryID(-1);
      }
    }

    /** The popup for one automatic-switch target. With at most one state there
        is no popup and no target. Otherwise the candidate list is built (see
        `CollectCandidates`), and the index the popup hands back (`choice`) is
        turned into a state ID: -1 for "None", otherwise the ID of the state the
        chosen entry came from. Reading the other states' labels heals empty ones. */
    method ChooseStateGUI(objective: Objective, stateID: Int32, choice: int) returns (r: Int32)
      requires ValidChoice(objective.states, this, choice)
      modifies (set s | s in objective.states && s != this)`labelText
      ensures r == ChooseState(objective.states, this, IdsOf(objective.states), choice)
      ensures unchanged(this)
      ensures forall j :: 0 <= j < |objective.states| && objective.states[j] != this ==>
        objective.states[j].labelText ==
          if |objective.states| > 1 then Healed(old(objective.states[j].labelText))
          else old(objective.states[j].labelText)
    {
      var states := objective.states;
      if |states| <= 1 {
        return -1;
      }
      ghost var ids, labels := IdsOf(states), LabelsOf(states);
      var shown, initial := CollectCandidates(states, stateID);
      PopupChoiceIsChooseState(states, this, ids, labels, choice);
      if choice <= 0 {
        r := -1;
      } else {
        CandidatesAreNoneThenOtherStates(states, this, ids, labels);
        assert IsEntryFor(shown[choice], states, this, ids, labels);
        var rootIndex := shown[choice].rootIndex;
        r := states[rootIndex].ID;
      }
    }

    /** The list-building loop of `ChooseStateGUI`: "None", then one entry per
        other state, read through its `Label` getter, remembering the last
        entry whose ID is `stateID`. */
    method CollectCandidates(states: seq<ObjectiveState>, stateID: Int32)
      returns (shown: seq<PopupSelectData>, initial: int)
      modifies (set s | s in states && s != this)`labelText
      ensures shown == Candidates(states, this, IdsOf(states), old(LabelsOf(states)))
      ensures initial == LastMatch(shown, stateID)
      ensures forall j :: 0 <= j < |states| && states[j] != this ==>
        states[j].labelText == Healed(old(states[j].labelText))
    {
      ghost var ids, labels := IdsOf(states), LabelsOf(states);
      initial := 0;
      shown := [NoneEntry];
      var i := 0;
      while i < |states|
        invariant 0 <= i <= |states|
        invariant IsBuiltUpTo(shown, states, this, ids, labels, i)
        invariant initial == LastMatch(shown, stateID)
        invariant LabelsReadUpTo(states, labels, i)
      {
        if states[i] != this {
          var text := ReadOtherLabel(states, labels, i);
          var entry := PopupSelectData(states[i].ID, text, i);
          BuiltPastOther(states, this, ids, labels, i, shown, stateID, entry);
          shown := shown + [entry];
          if entry.id == stateID {
            initial := |shown| - 1;
          }
        } else {
          BuiltPastSelf(states, this, ids, labels, i, shown);
          SkippingThisKeepsLabelsRead(states, labels, i);
        }
        i := i + 1;
      }
      BuiltUpToEnd(shown, states, this, ids, labels);
    }

    /** The labels of the other states in `states`, against the labels
        `labels` the loop started from: each is either as it was or healed,
        and those of the first `i` states are healed. */
    predicate LabelsReadUpTo(states: seq<ObjectiveState>, labels: seq<string>, i: int)
      reads states`labelText
      requires |labels| == |states| && 0 <= i <= |states|
    {
      && (forall j :: 0 <= j < |states| && states[j] != this ==>
            states[j].labelText == labels[j] || states[j].labelText == Healed(labels[j]))
      && (forall j :: 0 <= j < i && states[j] != this ==> states[j].labelText == Healed(labels[j]))
    }

    /** One step of the list-building loop reads the label of another state,
        state `i`, through its getter. That heals its label, and so the label
        of every other occurrence of the same state in the list. */
    method ReadOtherLabel(states: seq<ObjectiveState>, ghost labels: seq<string>, i: int) returns (text: string)
      requires |labels| == |states| && 0 <= i < |states| && states[i] != this
      requires forall j :: 0 <= j < |states| && states[j] == states[i] ==> labels[j] == labels[i]
      requires LabelsReadUpTo(states, labels, i)
      modifies {states[i]}`labelText
      ensures text == Healed(labels[i])
      ensures LabelsReadUpTo(states, labels, i + 1)
    {
      text := states[i].Label();
      forall j | 0 <= j < |states| && states[j] != this
        ensures states[j].labelText == labels[j] || states[j].labelText == Healed(labels[j])
        ensures j <= i ==> states[j].labelText == Healed(labels[j])
      {
        if states[j] == states[i] {
          assert labels[j] == labels[i];
        }
      }
    }

    /** The loop step that meets the edited state itself reads no label. */
    lemma SkippingThisKeepsLabelsRead(states: seq<ObjectiveState>, labels: seq<string>, i: int)
      requires |labels| == |states| && 0 <= i < |states| && states[i] == this
      requires LabelsReadUpTo(states, labels, i)
      ensures LabelsReadUpTo(states, labels, i + 1)
    {
    }

    /** The data decisions of the state's inspector, given what each widget
        hands back: the texts, the type (editable only from ID 2 on), the
        ActionList, the sub-objective category (never the parent's own), and,
        when a category is linked, the auto-start toggle and the four
        automatic-switch targets. */
    method ShowGUI(objective: Objective, input: EditorInput) returns (warned: bool)
      requires ValidChoice(objective.states, this, input.allSubObsCompleteChoice)
      requires ValidChoice(objective.states, this, input.anySubObsCompleteChoice)
      requires ValidChoice(objective.states, this, input.allSubObsFailChoice)
      requires ValidChoice(objective.states, this, input.anySubObsFailChoice)
      modifies this, (set s | s in objective.states && s != this)`labelText
      ensures unchanged(this`labelLineID, this`descriptionLineID)
      ensures labelText == Healed(input.labelText)
      ensures stateType == if ID >= 2 then input.stateType else old(stateType)
      ensures description == input.description
      ensures actionListOnEnter == input.actionListOnEnter
      ensures warned <==> input.linkedCategoryID >= 0 && input.linkedCategoryID == objective.binID
      ensures LinkedCategoryID() == if warned then -1 else input.linkedCategoryID
      ensures LinkedCategoryID() < 0 ==>
        unchanged(this`autoStartSubObjectives, this`autoStateIDOnAllSubObsCompletePlusOne,
                  this`autoStateIDOnAnySubObsCompletePlusOne, this`autoStateIDOnAllSubObsFailPlusOne,
                  this`autoStateIDOnAnySubObsFailPlusOne)
      ensures LinkedCategoryID() >= 0 ==>
        autoStartSubObjectives == input.autoStartSubObjectives && AutoStatesChosen(objective, input)
      ensures var states := objective.states;
        forall j :: 0 <= j < |states| && states[j] != this ==>
          states[j].labelText ==
            if LinkedCategoryID() >= 0 && |states| > 1 then Healed(old(states[j].labelText))
            else old(states[j].labelText)
    {
      EditDetails(input);
      warned := EditSubObjectives(objective, input);
    }

    /** The first half of `ShowGUI`: label, type, description and ActionList.
        Naming the ActionList asset reads the label through its getter. */
    method EditDetails(input: EditorInput)
      modifies this`labelText, this`stateType, this`description, this`actionListOnEnter
      ensures labelText == Healed(input.labelText)
      ensures stateType == if ID >= 2 then input.stateType else old(stateType)
      ensures description == input.description
      ensures actionListOnEnter == input.actionListOnEnter
    {
      labelText := input.labelText;
      if ID >= 2 {
        stateType := input.stateType;
      }
      description := input.description;
      var _ := Label();
      actionListOnEnter := input.actionListOnEnter;
    }

    /** The second half of `ShowGUI`: the sub-objective category, and, when one
        is linked, the auto-start toggle and the four automatic-switch targets. */
    method EditSubObjectives(objective: Objective, input: EditorInput) returns (warned: bool)
      requires ValidChoice(objective.states, this, input.allSubObsCompleteChoice)
      requires ValidChoice(objective.states, this, input.anySubObsCompleteChoice)
      requires ValidChoice(objective.states, this, input.allSubObsFailChoice)
      requires ValidChoice(objective.states, this, input.anySubObsFailChoice)
      modifies this`linkedCategoryIDPlusOne, this`autoStartSubObjectives
      modifies this`autoStateIDOnAllSubObsCompletePlusOne, this`autoStateIDOnAnySubObsCompletePlusOne
      modifies this`autoStateIDOnAllSubObsFailPlusOne, this`autoStateIDOnAnySubObsFailPlusOne
      modifies (set s | s in objective.states && s != this)`labelText
      ensures warned <==> input.linkedCategoryID >= 0 && input.linkedCategoryID == objective.binID
      ensures LinkedCategoryID() == if warned then -1 else input.linkedCategoryID
      ensures LinkedCategoryID() < 0 ==>
        unchanged(this`autoStartSubObjectives, this`autoStateIDOnAllSubObsCompletePlusOne,
                  this`autoStateIDOnAnySubObsCompletePlusOne, this`autoStateIDOnAllSubObsFailPlusOne,
                  this`autoStateIDOnAnySubObsFailPlusOne)
      ensures LinkedCategoryID() >= 0 ==>
        autoStartSubObjectives == input.autoStartSubObjectives && AutoStatesChosen(objective, input)
      ensures var states := objective.states;
        forall j :: 0 <= j < |states| && states[j] != this ==>
          states[j].labelText ==
            if LinkedCategoryID() >= 0 && |states| > 1 then Healed(old(states[j].labelText))
            else old(states[j].labelText)
    {
      SetLinkedCategoryID(input.linkedCategoryID);
      warned := ValidateLinkedCategory(objective);
      if LinkedCategoryID() >= 0 {
        autoStartSubObjectives := input.autoStartSubObjectives;
        ChooseAutoStates(objective, input);
      }
    }

    /** Each automatic-switch target is the state the editor's popup choice for it picks. */
    predicate AutoStatesChosen(objective: Objective, input: EditorInput)
      reads this`autoStateIDOnAllSubObsCompletePlusOne, this`autoStateIDOnAnySubObsCompletePlusOne
      reads this`autoStateIDOnAllSubObsFailPlusOne, this`autoStateIDOnAnySubObsFailPlusOne
    {
      var states, ids := objective.states, IdsOf(objective.states);
      && ValidChoice(states, this, input.allSubObsCompleteChoice)
      && ValidChoice(states, this, input.anySubObsCompleteChoice)
      && ValidChoice(states, this, input.allSubObsFailChoice)
      && ValidChoice(states, this, input.anySubObsFailChoice)
      && AutoStateIDOnAllSubObsComplete() == ChooseState(states, this, ids, input.allSubObsCompleteChoice)
      && AutoStateIDOnAnySubObsComplete() == ChooseState(states, this, ids, input.anySubObsCompleteChoice)
      && AutoStateIDOnAllSubObsFail() == ChooseState(states, this, ids, input.allSubObsFailChoice)
      && AutoStateIDOnAnySubObsFail() == ChooseState(states, this, ids, input.anySubObsFailChoice)
    }

    /** The four automatic-switch popups of `ShowGUI`, drawn one after the other;
        each target is resolved from the popup choice the editor hands back. */
    method ChooseAutoStates(objective: Objective, input: EditorInput)
      requires ValidChoice(objective.states, this, input.allSubObsCompleteChoice)
      requires ValidChoice(objective.states, this, input.anySubObsCompleteChoice)
      requires ValidChoice(objective.states, this, input.allSubObsFailChoice)
      requires ValidChoice(objective.states, this, input.anySubObsFailChoice)
      modifies this`autoStateIDOnAllSubObsCompletePlusOne, this`autoStateIDOnAnySubObsCompletePlusOne
      modifies this`autoStateIDOnAllSubObsFailPlusOne, this`autoStateIDOnAnySubObsFailPlusOne
      modifies (set s | s in objective.states && s != this)`labelText
      ensures AutoStatesChosen(objective, input)
      ensures var states := objective.states;
        forall j :: 0 <= j < |states| && states[j] != this ==>
          states[j].labelText == if |states| > 1 then Healed(old(states[j].labelText)) else old(states[j].labelText)
    {
      var target := ChooseStateGUI(objective, AutoStateIDOnAllSubObsComplete(), input.allSubObsCompleteChoice);
      SetAutoStateIDOnAllSubObsComplete(target);
      target := ChooseStateGUI(objective, AutoStateIDOnAnySubObsComplete(), input.anySubObsCompleteChoice);
      SetAutoStateIDOnAnySubObsComplete(target);
      target := ChooseStateGUI(objective, AutoStateIDOnAllSubObsFail(), input.allSubObsFailChoice);
      SetAutoStateIDOnAllSubObsFail(target);
      target := ChooseStateGUI(objective, AutoStateIDOnAnySubObsFail(), input.anySubObsFailChoice);
      SetAutoStateIDOnAnySubObsFail(target);
    }
  }
}
