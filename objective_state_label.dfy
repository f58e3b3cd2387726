/** A translatable text shown for a state type (the "Active", "Complete" and
    "Fail" captions): one text with one translation slot. */
module ObjectiveStateLabels {
  import opened Int32s
  import opened ObjectiveStates

  class ObjectiveStateLabel {
    /** The display text (C# `label`). */
    var labelText: string
    /** The translation ID; -1 while the text has no translation. */
    var lineID: Int32

    constructor (text: string)
      ensures labelText == text && lineID == -1
      ensures forall index :: !HasExistingTranslation(index)
    {
      labelText := text;
      lineID := -1;
    }

    // Translatable text: every index names the one slot.

    function GetTranslatableString(index: int): string
      reads this`labelText
    {
      labelText
    }

    function GetTranslationID(index: int): Int32
      reads this`lineID
    {
      lineID
    }

    function GetTranslationType(index: int): TextType {
      ObjectiveText
    }

    method UpdateTranslatableString(index: int, updatedText: string)
      modifies this`labelText
      ensures forall k :: GetTranslatableString(k) == updatedText
    {
      labelText := updatedText;
    }

    /** A single slot: whatever the index, it is the same text and translation ID. */
    function GetNumTranslatables(): (n: int)
      reads this
      ensures n == 1
      ensures forall k :: GetTranslatableString(k) == GetTranslatableString(n - 1)
      ensures forall k :: GetTranslationID(k) == GetTranslationID(n - 1)
    {
      1
    }

    /** The slot has a translation exactly when its translation ID is set. */
    function HasExistingTranslation(index: int): (r: bool)
      reads this`lineID
      ensures r <==> GetTranslationID(index) > -1
    {
      lineID > -1
    }

    method SetTranslationID(index: int, lineID: Int32)
      modifies this`lineID
      ensures forall k :: GetTranslationID(k) == lineID
      ensures forall k :: HasExistingTranslation(k) <==> lineID > -1
    {
      this.lineID := lineID;
    }

    function GetOwner(index: int): string {
      ""
    }

    function OwnerIsPlayer(index: int): bool {
      false
    }

    /** The slot can be translated exactly when the text is not empty. */
    function CanTranslate(index: int): (r: bool)
      reads this`labelText
      ensures r <==> GetTranslatableString(index) != []
    {
      labelText != []
    }
  }
}
