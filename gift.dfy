/** The gift panel (src/components/ui/Gift.tsx): the letter panel's edit/save state machine,
    plus the token that spares the password for thirty minutes, the open state reported to
    the parent, and the built-in text shown while there is no content. The token store is
    `localStorage`, passed in with the clock reading `now`. */
module Gift {
  import opened Wrappers
  import opened PasswordService
  import opened SharedPassword

  /** The Markdown shown when the gift content is empty. */
  const DefaultGiftText: string := "# 小惊喜 \U{1F381}\n\n亲爱的，这是我为你准备的特别惊喜！\n\n## 惊喜清单\n\n1. **一份特别的礼物** - 等你来发现\n2. **一段美好的回忆** - 我们一起创造\n3. **一个温暖的拥抱** - 随时为你准备\n\n> 爱是最好的礼物，而你是我最珍贵的礼物。\n\n期待与你一起度过更多美好时光！\U{2764}\U{FE0F}"

  class GiftPanel {
    var isOpen: bool
    var giftContent: string
    var isEditing: bool
    var editContent: string
    var isPasswordModalOpen: bool
    var password: string

    constructor()
      ensures !isOpen && giftContent == "" && !isEditing && editContent == ""
      ensures !isPasswordModalOpen && password == ""
    {
      isOpen := false;
      giftContent := "";
      isEditing := false;
      editContent := "";
      isPasswordModalOpen := false;
      password := "";
    }

    /** The value `onModalChange` is called with. */
    function ModalChange(): (shown: bool)
      reads this
      ensures shown ==> isOpen || isPasswordModalOpen
      ensures !shown ==> !isOpen && !isPasswordModalOpen
    {
      isOpen || isPasswordModalOpen
    }

    /** What the panel shows: the content, or the built-in text when it is empty, so the
        panel is never blank. */
    function DisplayedContent(): (text: string)
      reads this
      ensures text != ""
      ensures giftContent != "" ==> text == giftContent
      ensures giftContent == "" ==> text == DefaultGiftText
    {
      if giftContent == "" then DefaultGiftText else giftContent
    }

    /** The gift button. */
    method Open()
      modifies this`isOpen
      ensures isOpen && ModalChange() && giftContent == old(giftContent) && isEditing == old(isEditing)
    {
      isOpen := true;
    }

    /** The close button of the open gift. */
    method Close()
      modifies this`isOpen
      ensures !isOpen && giftContent == old(giftContent) && isEditing == old(isEditing)
      ensures ModalChange() == isPasswordModalOpen
    {
      isOpen := false;
    }

    /** The content is fetched only while the panel is open and has no content yet. */
    predicate ShouldFetch()
      reads this
    {
      isOpen && giftContent == ""
    }

    /** The fetch effect; `response` is the content of an ok response, `None` when the
        response was not ok or the request threw. */
    method FetchGift(response: Option<string>) returns (fetched: bool)
      modifies this`giftContent
      ensures fetched <==> old(ShouldFetch())
      ensures fetched && response.Some? ==> giftContent == response.value
      ensures !(fetched && response.Some?) ==> giftContent == old(giftContent)
      ensures isOpen == old(isOpen) && isEditing == old(isEditing) && editContent == old(editContent)
    {
      fetched := ShouldFetch();
      if fetched && response.Some? {
        giftContent := response.value;
      }
    }

    /** A mouse-down outside the panel closes it, but not while editing or while the password
        prompt is up. */
    method ClickOutsideGift()
      modifies this`isOpen
      ensures isOpen == (old(isOpen) && (old(isEditing) || old(isPasswordModalOpen)))
      ensures isEditing == old(isEditing) && isPasswordModalOpen == old(isPasswordModalOpen)
      ensures giftContent == old(giftContent) && editContent == old(editContent)
    {
      if isOpen && !isEditing && !isPasswordModalOpen {
        isOpen := false;
      }
    }

    /** A mouse-down outside the password prompt, or its cancel button, closes the prompt. */
    method ClosePasswordModal()
      modifies this`isPasswordModalOpen
      ensures !isPasswordModalOpen && isOpen == old(isOpen) && isEditing == old(isEditing)
      ensures giftContent == old(giftContent) && password == old(password)
    {
      isPasswordModalOpen := false;
    }

    /** `handleEdit` at time `now`: a valid token opens the editor on the current content at
        once and no prompt; otherwise the password prompt opens. The check may remove an
        expired or unparsable token. */
    method HandleEdit(store: TokenStore, now: int)
      modifies this`isEditing, this`editContent, this`isPasswordModalOpen, store
      ensures store.slot == SlotAfterCheck(old(store.slot), now)
      ensures TokenValid(old(store.slot), now) ==>
        isEditing && editContent == old(giftContent) && isPasswordModalOpen == old(isPasswordModalOpen)
      ensures !TokenValid(old(store.slot), now) ==>
        isPasswordModalOpen && ModalChange() && isEditing == old(isEditing) && editContent == old(editContent)
      ensures giftContent == old(giftContent) && isOpen == old(isOpen) && password == old(password)
    {
      var valid := store.CheckPasswordToken(now);
      if valid {
        editContent := giftContent;
        isEditing := true;
        return;
      }
      isPasswordModalOpen := true;
    }

    method TypePassword(value: string)
      modifies this`password
      ensures password == value && isEditing == old(isEditing) && isPasswordModalOpen == old(isPasswordModalOpen)
    {
      password := value;
    }

    method TypeEditContent(value: string)
      modifies this`editContent
      ensures editContent == value && giftContent == old(giftContent) && isEditing == old(isEditing)
    {
      editContent := value;
    }

    /** `handleVerifyPassword` at time `now`: the shared password stores a fresh token, closes
        the prompt, opens the editor on the current content and clears the field; any other
        password only alerts, leaving the token as it was. */
    method HandleVerifyPassword(store: TokenStore, now: int) returns (alerted: bool)
      modifies this`isPasswordModalOpen, this`editContent, this`isEditing, this`password, store
      ensures alerted <==> !PasswordAccepted(old(password))
      ensures !alerted ==>
        store.slot == TokenSetAt(now) && !isPasswordModalOpen && editContent == old(giftContent) &&
        isEditing && password == ""
      ensures alerted ==>
        store.slot == old(store.slot) && isPasswordModalOpen == old(isPasswordModalOpen) &&
        editContent == old(editContent) && isEditing == old(isEditing) && password == old(password)
      ensures isOpen == old(isOpen) && giftContent == old(giftContent)
    {
      if PasswordAccepted(password) {
        store.SetPasswordToken(now);
        isPasswordModalOpen := false;
        editContent := giftContent;
        isEditing := true;
        password := "";
        return false;
      }
      return true;
    }

    /** `handleSave`; `ok` says whether the POST answered ok (a thrown request counts as not
        ok). Only an ok save adopts the edited text and leaves the editor. */
    method HandleSave(ok: bool)
      modifies this`giftContent, this`isEditing
      ensures ok ==> giftContent == old(editContent) && !isEditing
      ensures !ok ==> giftContent == old(giftContent) && isEditing == old(isEditing)
      ensures editContent == old(editContent) && isOpen == old(isOpen)
    {
      if ok {
        giftContent := editContent;
        isEditing := false;
      }
    }

    /** `handleCancel`: the editor closes and the content keeps its text. */
    method HandleCancel()
      modifies this`isEditing
      ensures !isEditing && giftContent == old(giftContent) && editContent == old(editContent)
      ensures isOpen == old(isOpen)
    {
      isEditing := false;
    }
  }
}
