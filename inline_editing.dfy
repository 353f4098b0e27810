/**
  The inline editor of a title (app/components/board/hooks/useInlineEditing.ts):
  two fields, whether an edit is in progress and the text being edited,
  driven by its handlers. `initialValue` and `isDisabled` are the hook's
  current props, passed to each handler; a handler that would call
  `onSave` returns the value it passes.
*/
module InlineEditing {
  import opened Wrappers
  import Text

  /** save's call: onSave(trimmed) exactly when the trimmed text differs from the initial value. */
  function SaveCall(editValue: string, initialValue: string): (r: Option<string>)
    ensures r.Some? <==> Text.Trim(editValue) != initialValue
    ensures r.Some? ==> r.value == Text.Trim(editValue)
  {
    var trimmedValue := Text.Trim(editValue);
    if trimmedValue != initialValue then Some(trimmedValue) else None
  }

  /** Saving right after startEdit, with nothing typed, calls onSave exactly when the initial value is not its own trim. */
  lemma SaveUntouched(initialValue: string)
    ensures SaveCall(initialValue, initialValue).None? <==> Text.Trim(initialValue) == initialValue
  {
  }

  /** Padding around an unchanged value is not a change. */
  lemma PaddingIsNoChange(w1: string, initialValue: string, w2: string)
    requires Text.AllWhite(w1) && Text.AllWhite(w2) && Text.Trim(initialValue) == initialValue
    ensures SaveCall(w1 + initialValue + w2, initialValue).None?
  {
    Text.TrimIgnoresPadding(w1, initialValue, w2);
  }

  /** Whatever was typed, what onSave receives is already trimmed. */
  lemma SavedValueIsTrimmed(editValue: string, initialValue: string)
    ensures SaveCall(editValue, initialValue).Some? ==>
      Text.Trim(SaveCall(editValue, initialValue).value) == SaveCall(editValue, initialValue).value
  {
    Text.TrimIdempotent(editValue);
  }

  class InlineEditor {
    var isEditing: bool
    var editValue: string

    constructor(initialValue: string)
      ensures !isEditing && editValue == initialValue
    {
      isEditing := false;
      editValue := initialValue;
    }

    /** The effect on `initialValue`: a new initial value replaces the text. */
    method InitialValueChanged(initialValue: string)
      modifies this
      ensures editValue == initialValue && isEditing == old(isEditing)
    {
      editValue := initialValue;
    }

    /** startEdit: enters editing with the initial value, unless disabled. */
    method StartEdit(initialValue: string, isDisabled: bool)
      modifies this
      ensures !isDisabled ==> isEditing && editValue == initialValue
      ensures isDisabled ==> isEditing == old(isEditing) && editValue == old(editValue)
    {
      if !isDisabled {
        isEditing := true;
        editValue := initialValue;
      }
    }

    /** handleValueChange. */
    method HandleValueChange(value: string)
      modifies this
      ensures editValue == value && isEditing == old(isEditing)
    {
      editValue := value;
    }

    /** save: calls onSave with the trimmed text when it differs from the initial value; always leaves editing. */
    method Save(initialValue: string) returns (saved: Option<string>)
      modifies this
      ensures saved == SaveCall(old(editValue), initialValue)
      ensures !isEditing && editValue == old(editValue)
    {
      var trimmedValue := Text.Trim(editValue);
      if trimmedValue != initialValue {
        saved := Some(trimmedValue);
      } else {
        saved := None;
      }
      isEditing := false;
    }

    /** cancel: back to the initial value, out of editing, no save. */
    method Cancel(initialValue: string)
      modifies this
      ensures editValue == initialValue && !isEditing
    {
      editValue := initialValue;
      isEditing := false;
    }

    /** handleKeyDown: Enter without Shift saves, Escape cancels, any other key does nothing. */
    method HandleKeyDown(key: string, shiftKey: bool, initialValue: string) returns (saved: Option<string>)
      modifies this
      ensures key == "Enter" && !shiftKey ==>
        saved == SaveCall(old(editValue), initialValue) && !isEditing && editValue == old(editValue)
      ensures !(key == "Enter" && !shiftKey) && key == "Escape" ==>
        saved.None? && !isEditing && editValue == initialValue
      ensures !(key == "Enter" && !shiftKey) && key != "Escape" ==>
        saved.None? && isEditing == old(isEditing) && editValue == old(editValue)
    {
      saved := None;
      if key == "Enter" && !shiftKey {
        saved := Save(initialValue);
      } else if key == "Escape" {
        Cancel(initialValue);
      }
    }

    /** handleBlur: exactly save. */
    method HandleBlur(initialValue: string) returns (saved: Option<string>)
      modifies this
      ensures saved == SaveCall(old(editValue), initialValue)
      ensures !isEditing && editValue == old(editValue)
    {
      saved := Save(initialValue);
    }
  }
}
