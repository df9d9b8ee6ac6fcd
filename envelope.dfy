/** The letter panel (src/components/ui/Envelope.tsx): open and close, the fetch guard, and
    the password-gated edit/save state machine. The letter requests' outcomes are parameters;
    the loading flag, which only drives a spinner, is left out. */
module Envelope {
  import opened Wrappers
  import opened SharedPassword

  class Letter {
    var isOpen: bool
    var letterContent: string
    var isEditing: bool
    var editContent: string
    var isPasswordModalOpen: bool
    var password: string

    constructor()
      ensures !isOpen && letterContent == "" && !isEditing && editContent == ""
      ensures !isPasswordModalOpen && password == ""
    {
      isOpen := false;
      letterContent := "";
      isEditing := false;
      editContent := "";
      isPasswordModalOpen := false;
      password := "";
    }

    /** The envelope button. */
    method Open()
      modifies this`isOpen
      ensures isOpen && letterContent == old(letterContent) && isEditing == old(isEditing)
    {
      isOpen := true;
    }

    /** The close button of the open letter. */
    method Close()
      modifies this`isOpen
      ensures !isOpen && letterContent == old(letterContent) && isEditing == old(isEditing)
    {
      isOpen := false;
    }

    /** The letter is fetched only while it is open and has no content yet. */
    predicate ShouldFetch()
      reads this
    {
      isOpen && letterContent == ""
    }

    /** The fetch effect; `response` is the content of an ok response, `None` when the
        response was not ok or the request threw. */
    method FetchLetter(response: Option<string>) returns (fetched: bool)
      modifies this`letterContent
      ensures fetched <==> old(ShouldFetch())
      ensures fetched && response.Some? ==> letterContent == response.value
      ensures !(fetched && response.Some?) ==> letterContent == old(letterContent)
      ensures isOpen == old(isOpen) && isEditing == old(isEditing) && editContent == old(editContent)
    {
      fetched := ShouldFetch();
      if fetched && response.Some? {
        letterContent := response.value;
      }
    }

    /** A mouse-down outside the letter closes it, but not while it is being edited or the
        password prompt is up. */
    method ClickOutsideLetter()
      modifies this`isOpen
      ensures isOpen == (old(isOpen) && (old(isEditing) || old(isPasswordModalOpen)))
      ensures isEditing == old(isEditing) && isPasswordModalOpen == old(isPasswordModalOpen)
      ensures letterContent == old(letterContent) && editContent == old(editContent)
    {
      if isOpen && !isEditing && !isPasswordModalOpen {
        isOpen := false;
      }
    }

    /** A mouse-down outside the password prompt, or its cancel button, closes the prompt. */
    method ClosePasswordModal()
      modifies this`isPasswordModalOpen
      ensures !isPasswordModalOpen && isOpen == old(isOpen) && isEditing == old(isEditing)
      ensures letterContent == old(letterContent) && password == old(password)
    {
      isPasswordModalOpen := false;
    }

    /** `handleEdit`: always asks for the password first. */
    method HandleEdit()
      modifies this`isPasswordModalOpen
      ensures isPasswordModalOpen && isEditing == old(isEditing) && letterContent == old(letterContent)
    {
      isPasswordModalOpen := true;
    }

    method TypePassword(value: string)
      modifies this`password
      ensures password == value && isEditing == old(isEditing) && isPasswordModalOpen == old(isPasswordModalOpen)
    {
      password := value;
    }

    method TypeEditContent(value: string)
      modifies this`editContent
      ensures editContent == value && letterContent == old(letterContent) && isEditing == old(isEditing)
    {
      editContent := value;
    }

    /** `handleVerifyPassword`: the shared password opens the editor on the current letter and
        clears the field; any other password only alerts. */
    method HandleVerifyPassword() returns (alerted: bool)
      modifies this`isPasswordModalOpen, this`editContent, this`isEditing, this`password
      ensures alerted <==> !PasswordAccepted(old(password))
      ensures !alerted ==>
        !isPasswordModalOpen && editContent == old(letterContent) && isEditing && password == ""
      ensures alerted ==>
        isPasswordModalOpen == old(isPasswordModalOpen) && editContent == old(editContent) &&
        isEditing == old(isEditing) && password == old(password)
      ensures isOpen == old(isOpen) && letterContent == old(letterContent)
    {
      if PasswordAccepted(password) {
        isPasswordModalOpen := false;
        editContent := letterContent;
        isEditing := true;
        password := "";
        return false;
      }
      return true;
    }

    /** `handleSave`; `ok` says whether the POST answered ok (a thrown request counts as not
        ok). Only an ok save adopts the edited text and leaves the editor. */
    method HandleSave(ok: bool)
      modifies this`letterContent, this`isEditing
      ensures ok ==> letterContent == old(editContent) && !isEditing
      ensures !ok ==> letterContent == old(letterContent) && isEditing == old(isEditing)
      ensures editContent == old(editContent) && isOpen == old(isOpen)
    {
      if ok {
        letterContent := editContent;
        isEditing := false;
      }
    }

    /** `handleCancel`: the editor closes and the letter keeps its text. */
    method HandleCancel()
      modifies this`isEditing
      ensures !isEditing && letterContent == old(letterContent) && editContent == old(editContent)
      ensures isOpen == old(isOpen)
    {
      isEditing := false;
    }
  }
}
