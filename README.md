# Objective states (Adventure Creator)

A model of the states of an Adventure Creator *Objective*. An objective, such as
a quest, moves through states like "Active", "Complete" or "Fail". Each state
(`ObjectiveState`) holds:

- an ID meant to be unique within its objective;
- a label and a description, each with a translation ID;
- a state type;
- an ActionList that runs when the state is entered;
- optionally, a linked category of sub-objectives;
- up to four "automatic switch" targets. These are other states of the same
  objective, entered when all or any of the sub-objectives complete or fail.

Optional references are stored as "value plus one", so that the zero default
means "unset". An `ObjectiveStateLabel` is the translatable caption of a state
type.

The model consists of six modules:

- `Int32s` models C#'s `int` and its unchecked `+ 1` / `- 1`, which the
  "plus one" encoding relies on.
- `StateIds` covers the single pass the array constructor uses to pick a new
  state's ID.
- `Labels` covers the "(Untitled)" fallback of the `Label` getter.
- `StateCandidates` models the popup the editor offers for an automatic-switch
  target, and how a popup choice turns back into a state ID.
- `ObjectiveStates` holds the `ObjectiveState` class itself: its two
  constructors, the `Label` property, the plus-one properties, the
  translatable-text interface, the display filter and the data side of the
  inspector (`ShowGUI`, `ChooseStateGUI`).
- `ObjectiveStateLabels` holds the `ObjectiveStateLabel` class.

Modelling choices:

- The C# field `label` is called `labelText`, because `label` is a Dafny keyword.
- A state's `ID` is a `const`, because only this class's constructors assign
  it. Writes to the public field from other classes are not modelled.
- The editor widgets are not modelled. `ShowGUI` takes what each widget hands
  back as an `EditorInput` value.
- The parent `Objective` is a value holding its list of states and its
  category ID.

All source paths below are relative to the repository root. Every row refers to
`Assets/AdventureCreator/Scripts/Objectives/ObjectiveState.cs`.

## Model

| member | source | states |
|---|---|---|
| Int32s.WrappingIncrement | Assets/AdventureCreator/Scripts/Objectives/ObjectiveState.cs:289-299 | the setters' unchecked `value + 1` is congruent to value + 1 modulo 2^32 (int.MaxValue wraps to int.MinValue) |
| Int32s.WrappingDecrement | Assets/AdventureCreator/Scripts/Objectives/ObjectiveState.cs:289-299 | the getters' unchecked `PlusOne - 1` is congruent to the stored value - 1 modulo 2^32 |
| Int32s.CongruentInt32sAreEqual | Assets/AdventureCreator/Scripts/Objectives/ObjectiveState.cs:289-299 | two 32-bit values congruent modulo 2^32 are equal, so the wrap results above are unique |
| Int32s.DecrementUndoesIncrement | Assets/AdventureCreator/Scripts/Objectives/ObjectiveState.cs:289-355 | every property reads back exactly the value last set, for every 32-bit value including int.MaxValue |
| Int32s.IncrementUndoesDecrement | Assets/AdventureCreator/Scripts/Objectives/ObjectiveState.cs:289-355 | every stored plus-one value is the encoding of the value its getter returns |
| StateIds.ScanIdBounds | Assets/AdventureCreator/Scripts/Objectives/ObjectiveState.cs:80-86 | the ID pass moves the candidate up at most once per existing ID |
| StateIds.ScanIdFindsFreeId | Assets/AdventureCreator/Scripts/Objectives/ObjectiveState.cs:80-86 | on strictly ascending IDs, the pass ends on an ID not in use, and every ID it skipped is in use |
| StateIds.PickedIdInRange | Assets/AdventureCreator/Scripts/Objectives/ObjectiveState.cs:69-87 | the picked ID lies in [0, number of existing IDs] |
| StateIds.PickedIdIsLeastFreeWhenSorted | Assets/AdventureCreator/Scripts/Objectives/ObjectiveState.cs:69-87 | on strictly ascending IDs, the picked ID is the least non-negative ID not in use |
| StateIds.UnsortedIdsCanCollide | Assets/AdventureCreator/Scripts/Objectives/ObjectiveState.cs:80-86 | on unsorted IDs, [1, 0], the pass picks 1, which is already in use |
| StateIds.PickedIdExamples | Assets/AdventureCreator/Scripts/Objectives/ObjectiveState.cs:80-86 | [0, 1, 2] gives 3 and [1, 2] gives 0 |
| Labels.Healed | Assets/AdventureCreator/Scripts/Objectives/ObjectiveState.cs:170-177 | the label read is never empty, and a non-empty stored label is returned unchanged |
| Labels.HealedIsIdempotent | Assets/AdventureCreator/Scripts/Objectives/ObjectiveState.cs:170-177 | reading the label a second time gives the same text |
| StateCandidates.OtherIds | Assets/AdventureCreator/Scripts/Objectives/ObjectiveState.cs:252-256 | there is one entry per state other than the edited one |
| StateCandidates.OthersSnoc | Assets/AdventureCreator/Scripts/Objectives/ObjectiveState.cs:252-257 | one more loop step appends exactly the entry for state i, unless it is the edited state |
| StateCandidates.LastMatchSnoc | Assets/AdventureCreator/Scripts/Objectives/ObjectiveState.cs:259-262 | appending an entry moves the initial selection to it exactly when its ID matches |
| StateCandidates.BuiltPastSelf | Assets/AdventureCreator/Scripts/Objectives/ObjectiveState.cs:252-254 | the loop step that meets the edited state adds no entry and keeps the list equal to "None" plus the entries of the states seen so far |
| StateCandidates.BuiltPastOther | Assets/AdventureCreator/Scripts/Objectives/ObjectiveState.cs:256-262 | the loop step that meets another state appends its entry (its ID, its healed label, its index), and that entry becomes the initial selection exactly when its ID is the current target |
| StateCandidates.BuiltUpToEnd | Assets/AdventureCreator/Scripts/Objectives/ObjectiveState.cs:250-262 | after the last state, the list built is the full candidate list |
| StateCandidates.OthersLength | Assets/AdventureCreator/Scripts/Objectives/ObjectiveState.cs:252-257 | the popup has one entry per state other than the edited one |
| StateCandidates.OthersAreOtherStatesInOrder | Assets/AdventureCreator/Scripts/Objectives/ObjectiveState.cs:252-257 | each entry is another state, with that state's ID and healed label, in list order |
| StateCandidates.OthersCoverOtherStates | Assets/AdventureCreator/Scripts/Objectives/ObjectiveState.cs:252-257 | every other state has an entry |
| StateCandidates.CandidatesLength | Assets/AdventureCreator/Scripts/Objectives/ObjectiveState.cs:247-257 | the popup has one more entry than there are other states |
| StateCandidates.CandidatesAreNoneThenOtherStates | Assets/AdventureCreator/Scripts/Objectives/ObjectiveState.cs:247-257 | "None" comes first, then exactly the other states, in order |
| StateCandidates.LastMatchIsLastMatchingEntry | Assets/AdventureCreator/Scripts/Objectives/ObjectiveState.cs:246-262 | the initial selection is the last entry whose ID is the current target, or "None" when no entry has it |
| StateCandidates.UntouchedPopupKeepsTarget | Assets/AdventureCreator/Scripts/Objectives/ObjectiveState.cs:246-281 | leaving the popup at its initial selection keeps the target if another state has that ID, and clears it to -1 otherwise |
| StateCandidates.OthersCarryOtherIds | Assets/AdventureCreator/Scripts/Objectives/ObjectiveState.cs:252-257 | the entries carry the other states' IDs in order, whatever their labels |
| StateCandidates.PopupChoiceIsChooseState | Assets/AdventureCreator/Scripts/Objectives/ObjectiveState.cs:271-280 | resolving the chosen entry through its root index gives the ID of the choice-th other state |
| StateCandidates.ChoicesAreOtherStates | Assets/AdventureCreator/Scripts/Objectives/ObjectiveState.cs:240-281 | a choice yields -1 or the ID of another state, and every other state's ID can be chosen |
| StateCandidates.EditingMiddleStateOffersTheOtherTwo | Assets/AdventureCreator/Scripts/Objectives/ObjectiveState.cs:247-257 | editing B among [A(1), B(2), C(3)] offers [None, A, C] |
| StateCandidates.SingleStateOffersNothing | Assets/AdventureCreator/Scripts/Objectives/ObjectiveState.cs:242-245 | with a single state, every choice gives -1 |
| ObjectiveStates.AllAdmitsEveryStateType | Assets/AdventureCreator/Scripts/Objectives/ObjectiveState.cs:121-140 | the All filter matches every state type |
| ObjectiveStates.EachOnlyFilterAdmitsExactlyOneType | Assets/AdventureCreator/Scripts/Objectives/ObjectiveState.cs:121-140 | each "only" filter matches exactly one state type |
| ObjectiveStates.OnlyFiltersAdmitTheirOwnType | Assets/AdventureCreator/Scripts/Objectives/ObjectiveState.cs:128-135 | ActiveOnly matches exactly the Active type, CompleteOnly exactly Complete, FailedOnly exactly Fail |
| ObjectiveStates.UnlistedValuesMatchNothing | Assets/AdventureCreator/Scripts/Objectives/ObjectiveState.cs:121-140 | an unnamed filter value matches nothing, and an unnamed state type is matched by All only |
| ObjectiveStates.IdsOf | Assets/AdventureCreator/Scripts/Objectives/ObjectiveState.cs:256 | the IDs of the states, position by position |
| ObjectiveStates.LabelsOf | Assets/AdventureCreator/Scripts/Objectives/ObjectiveState.cs:256 | the stored labels of the states, position by position |
| ObjectiveStates.ObjectiveState.constructor | Assets/AdventureCreator/Scripts/Objectives/ObjectiveState.cs:55-66 | the given ID, label and type, with no translation IDs, empty description, no ActionList, no category and no switch targets |
| ObjectiveStates.ObjectiveState.FromIds | Assets/AdventureCreator/Scripts/Objectives/ObjectiveState.cs:69-87 | an Active state with an empty label and fresh defaults; the ID is what the pass computes, lies in [0, n], and is the least free ID when the existing IDs are strictly ascending |
| ObjectiveStates.ObjectiveState.Label | Assets/AdventureCreator/Scripts/Objectives/ObjectiveState.cs:170-177 | an empty label is replaced by "(Untitled)", which is stored and returned; a non-empty label is returned and stays as it is |
| ObjectiveStates.ObjectiveState.SetLabel | Assets/AdventureCreator/Scripts/Objectives/ObjectiveState.cs:178-181 | stores the label as given, empty included |
| ObjectiveStates.ObjectiveState.SetLinkedCategoryID | Assets/AdventureCreator/Scripts/Objectives/ObjectiveState.cs:289-299 | the getter then returns the value set, and the stored field is 0 exactly when -1 was set |
| ObjectiveStates.ObjectiveState.SetAutoStateIDOnAllSubObsComplete | Assets/AdventureCreator/Scripts/Objectives/ObjectiveState.cs:303-313 | the getter then returns the value set, and the stored field is 0 exactly when -1 was set |
| ObjectiveStates.ObjectiveState.SetAutoStateIDOnAnySubObsComplete | Assets/AdventureCreator/Scripts/Objectives/ObjectiveState.cs:317-327 | the getter then returns the value set, and the stored field is 0 exactly when -1 was set |
| ObjectiveStates.ObjectiveState.SetAutoStateIDOnAllSubObsFail | Assets/AdventureCreator/Scripts/Objectives/ObjectiveState.cs:331-341 | the getter then returns the value set, and the stored field is 0 exactly when -1 was set |
| ObjectiveStates.ObjectiveState.SetAutoStateIDOnAnySubObsFail | Assets/AdventureCreator/Scripts/Objectives/ObjectiveState.cs:345-355 | the getter then returns the value set, and the stored field is 0 exactly when -1 was set |
| ObjectiveStates.ObjectiveState.UpdateTranslatableString | Assets/AdventureCreator/Scripts/Objectives/ObjectiveState.cs:396-406 | index 0 replaces the label and any other index replaces the description; the other text is unchanged |
| ObjectiveStates.ObjectiveState.GetNumTranslatables | Assets/AdventureCreator/Scripts/Objectives/ObjectiveState.cs:409-412 | two slots: the first is the label and its ID, the last the description and its ID |
| ObjectiveStates.ObjectiveState.HasExistingTranslation | Assets/AdventureCreator/Scripts/Objectives/ObjectiveState.cs:415-425 | a slot has a translation exactly when its translation ID is above -1 |
| ObjectiveStates.ObjectiveState.SetTranslationID | Assets/AdventureCreator/Scripts/Objectives/ObjectiveState.cs:429-439 | the slot's ID reads back as set and decides HasExistingTranslation; the other slot's ID is unchanged |
| ObjectiveStates.ObjectiveState.CanTranslate | Assets/AdventureCreator/Scripts/Objectives/ObjectiveState.cs:454-461 | a slot can be translated exactly when its text is not empty |
| ObjectiveStates.ObjectiveState.ValidateLinkedCategory | Assets/AdventureCreator/Scripts/Objectives/ObjectiveState.cs:220-224 | a link to the parent's own category is cleared to -1 with a warning, and nothing else is; afterwards the link is never the parent's category |
| ObjectiveStates.ObjectiveState.ChooseStateGUI | Assets/AdventureCreator/Scripts/Objectives/ObjectiveState.cs:240-281 | returns the target the popup choice stands for: -1 with at most one state or on "None", else the ID of the chosen other state; the edited state is unchanged, and the other states' empty labels become "(Untitled)" |
| ObjectiveStates.ObjectiveState.CollectCandidates | Assets/AdventureCreator/Scripts/Objectives/ObjectiveState.cs:247-262 | the list built is "None" then one entry per other state with its healed label; the initial selection is the last entry matching the current target; every other state's label is healed |
| ObjectiveStates.ObjectiveState.ReadOtherLabel | Assets/AdventureCreator/Scripts/Objectives/ObjectiveState.cs:256 | reading another state's label through its getter returns it healed; that state's label, at every position it holds in the list, is healed, and the other labels keep what the loop has done to them so far |
| ObjectiveStates.ObjectiveState.SkippingThisKeepsLabelsRead | Assets/AdventureCreator/Scripts/Objectives/ObjectiveState.cs:254 | the loop step that meets the edited state leaves every label as it is |
| ObjectiveStates.ObjectiveState.ShowGUI | Assets/AdventureCreator/Scripts/Objectives/ObjectiveState.cs:189-237 | sets the label (healed), the type only from ID 2 on, the description and the ActionList; the category is kept unless it is the parent's own; the auto-start toggle and the four switch targets change only when a category is linked, each to the state its popup choice picks; translation IDs are untouched |
| ObjectiveStates.ObjectiveState.EditDetails | Assets/AdventureCreator/Scripts/Objectives/ObjectiveState.cs:191-216 | label (healed by the getter read when naming the ActionList), type only from ID 2 on, description and ActionList as entered |
| ObjectiveStates.ObjectiveState.EditSubObjectives | Assets/AdventureCreator/Scripts/Objectives/ObjectiveState.cs:217-236 | category as entered unless it is the parent's own (then -1, with a warning); the toggle and targets change only when a category is linked |
| ObjectiveStates.ObjectiveState.ChooseAutoStates | Assets/AdventureCreator/Scripts/Objectives/ObjectiveState.cs:232-235 | each of the four targets becomes the state its popup choice picks |
| ObjectiveStateLabels.ObjectiveStateLabel.constructor | Assets/AdventureCreator/Scripts/Objectives/ObjectiveState.cs:481-485 | the given text with translation ID -1, so no slot has a translation |
| ObjectiveStateLabels.ObjectiveStateLabel.UpdateTranslatableString | Assets/AdventureCreator/Scripts/Objectives/ObjectiveState.cs:510-513 | every index reads back the new text |
| ObjectiveStateLabels.ObjectiveStateLabel.GetNumTranslatables | Assets/AdventureCreator/Scripts/Objectives/ObjectiveState.cs:516-519 | one slot: every index names the same text and translation ID |
| ObjectiveStateLabels.ObjectiveStateLabel.HasExistingTranslation | Assets/AdventureCreator/Scripts/Objectives/ObjectiveState.cs:522-525 | has a translation exactly when the translation ID is above -1 |
| ObjectiveStateLabels.ObjectiveStateLabel.SetTranslationID | Assets/AdventureCreator/Scripts/Objectives/ObjectiveState.cs:528-531 | every index reads back the ID set, and has a translation exactly when it is above -1 |
| ObjectiveStateLabels.ObjectiveStateLabel.CanTranslate | Assets/AdventureCreator/Scripts/Objectives/ObjectiveState.cs:546-549 | can be translated exactly when the text is not empty |

The getters and the remaining translatable members have no contract of their
own. They are the specification functions the contracts above are stated in:

- `GetTranslatableString`, `GetTranslationID` and `GetTranslationType`;
- `GetOwner`, which is always empty, and `OwnerIsPlayer`, which is always false;
- `LinkedCategoryID` and the four `AutoStateIDOn...` getters;
- `DisplayTypeMatches`.

## Left out

- `GetLabel`, `GetDescription` and `GetStateTypeText` (lines 99-114 and 143-160) are not modelled. They only look up the runtime translation service and the inventory manager's global captions, which are outside this model.
- Drawing the editor is not modelled: the text fields, popups, labels and layout calls. Each widget's return value is an input of `ShowGUI`. The warning logged at line 223 is modelled as `ShowGUI`'s result `warned`.
- The category list offered by the inventory manager's category chooser is not modelled. The chosen category ID is an input of `ShowGUI`.
- C# `null` strings are not modelled. `string.IsNullOrEmpty` is modelled as a test for the empty string.
- A `null` ID array passed to the array constructor is not modelled.
- Assignments to a state's public `ID` field from outside the class are not modelled. The model's `ID` is fixed by the constructors.
- ObjectiveStates.ObjectiveState.FromIds: requires at most `int.MaxValue` existing IDs. That is the array-length limit of the runtime, and it keeps the C# `ID++` from overflowing. The loop counts in a local and assigns `ID` once at the end, because the model's `ID` is a `const`.
- ObjectiveStates.ObjectiveState.FromIds: does not promise a unique ID in general. The source promises it, but the pass only finds a free ID when the existing IDs are strictly ascending. `StateIds.UnsortedIdsCanCollide` shows an input where it does not.
- ObjectiveStates.ObjectiveState.ChooseStateGUI: does not return the popup list or the initial selection. Those are internal to the source method. `CollectCandidates` returns them and states their contents. The popup shows the initial selection, and the index the user leaves it at is the `choice` input.
- ObjectiveStates.ObjectiveState.ShowGUI: is modelled as `EditDetails` followed by `EditSubObjectives`, with the four popups in `ChooseAutoStates`. The order of the writes is the source's.
- The two other files of the repository around this component are not part of this model: the speech Timeline clip and the input switcher.
- An enum value outside the named members, which C# allows through a cast, is modelled by one extra constructor for each enum: `UnlistedStateType` and `UnlistedDisplayType`.
