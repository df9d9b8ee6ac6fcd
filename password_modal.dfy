/** The timeline's password prompt (src/components/timeline/PasswordModal.tsx): the action
    caption, the token bypass on mount, and the typed password handed to `onVerify`. The
    `onVerify` callback is modelled by returning the argument it would receive. */
module PasswordModal {
  import opened Wrappers
  import opened PasswordService

  /** The `action` prop. */
  datatype Action = Add | Edit | Delete

  /** `getActionText()`. The `default` branch (`操作`) is unreachable for the three typed
      actions. */
  function ActionText(action: Action): string {
    match action
    case Add => "添加"
    case Edit => "编辑"
    case Delete => "删除"
  }

  /** Each action has its own caption, and none is the fallback caption. */
  lemma ActionTextsDistinct(a: Action, b: Action)
    ensures ActionText(a) == ActionText(b) <==> a == b
    ensures ActionText(a) != "操作" && |ActionText(a)| == 2
  {
  }

  class Modal {
    const action: Action
    var password: string

    /** The password field starts empty. */
    constructor(action: Action)
      ensures this.action == action && password == ""
    {
      this.action := action;
      password := "";
    }

    /** The mount effect: with a valid token, `onVerify('')` is called at once (returned as
        `Some("")`); otherwise nothing is verified. The check itself may remove an expired
        or unparsable token. */
    method Mount(store: TokenStore, now: int) returns (verified: Option<string>)
      modifies store
      ensures verified == (if TokenValid(old(store.slot), now) then Some("") else None)
      ensures store.slot == SlotAfterCheck(old(store.slot), now)
      ensures password == old(password)
    {
      var valid := store.CheckPasswordToken(now);
      if valid {
        return Some("");
      }
      return None;
    }

    /** The input's `onChange`. */
    method TypePassword(value: string)
      modifies this
      ensures password == value
    {
      password := value;
    }

    /** `handleSubmit`: the typed password goes to `onVerify` as it is. */
    method HandleSubmit() returns (verified: string)
      ensures verified == password
    {
      return password;
    }
  }
}
