/** The one-slot token store behind the edit password (src/lib/passwordService.ts). */
module PasswordService {
  import opened Wrappers

  /** 30 minutes, in milliseconds. */
  const ExpirationTime: int := 1800000

  /** What `localStorage.getItem('auth_token')` holds, as `checkPasswordToken` sees it.
      `Missing` is no item or the empty string (both fail the `!tokenStr` test); `Unparsable`
      is text on which `JSON.parse` or the `.expires` access throws (including `null`);
      `Parsed(e)` is a parsed value whose `expires` compares as the number `e`, or `None`
      when it is missing or not numeric, so that `now > expires` is false. */
  datatype StoredToken = Missing | Unparsable | Parsed(expires: Option<int>)

  /** What `setPasswordToken` stores at time `now`. */
  function TokenSetAt(now: int): (s: StoredToken)
    ensures s.Parsed? && s.expires == Some(now + ExpirationTime)
  {
    Parsed(Some(now + ExpirationTime))
  }

  /** `Date.now() > token.expires`. */
  predicate Expired(s: StoredToken, now: int)
    requires s.Parsed?
  {
    s.expires.Some? && now > s.expires.value
  }

  /** The result of `checkPasswordToken` at time `now`. */
  predicate TokenValid(s: StoredToken, now: int) {
    s.Parsed? && !Expired(s, now)
  }

  /** The slot after `checkPasswordToken` at time `now`: expired and unparsable tokens are
      removed, anything else is left as it was. */
  function SlotAfterCheck(s: StoredToken, now: int): (r: StoredToken)
    ensures r.Missing? <==> !TokenValid(s, now)
    ensures !r.Missing? ==> r == s
  {
    if s.Missing? || TokenValid(s, now) then s else Missing
  }

  class TokenStore {
    var slot: StoredToken

    constructor()
      ensures slot == Missing
    {
      slot := Missing;
    }

    method SetPasswordToken(now: int)
      modifies this
      ensures slot == TokenSetAt(now)
    {
      slot := Parsed(Some(now + ExpirationTime));
    }

    method CheckPasswordToken(now: int) returns (valid: bool)
      modifies this
      ensures valid == TokenValid(old(slot), now)
      ensures slot == SlotAfterCheck(old(slot), now)
    {
      match slot
      case Missing =>
        return false;
      case Unparsable =>
        slot := Missing;
        return false;
      case Parsed(expires) =>
        if expires.Some? && now > expires.value {
          slot := Missing;
          return false;
        }
        return true;
    }

    method ClearPasswordToken()
      modifies this
      ensures slot == Missing
    {
      slot := Missing;
    }
  }

  /** A parsed token with a numeric expiry is valid exactly up to and including that instant. */
  lemma ValidUntilExpiry(e: int, now: int)
    ensures TokenValid(Parsed(Some(e)), now) <==> now <= e
  {
  }

  /** A token set at `t` passes every check from `t` to `t` + 30 minutes and fails every
      check after that. */
  lemma SetThenCheck(t: int, later: int)
    requires t <= later
    ensures TokenValid(TokenSetAt(t), later) <==> later - t <= ExpirationTime
  {
  }

  /** A check never turns a failing slot into a passing one, and keeps a passing slot as it
      is: a failed check leaves nothing a later check could accept. */
  lemma CheckOutcome(s: StoredToken, now: int, later: int)
    ensures TokenValid(s, now) ==> SlotAfterCheck(s, now) == s
    ensures !TokenValid(s, now) ==> SlotAfterCheck(s, now) == Missing
    ensures !TokenValid(s, now) ==> !TokenValid(SlotAfterCheck(s, now), later)
  {
  }

  /** With nothing stored (never set, or cleared) a check fails and changes nothing. */
  lemma MissingFailsUnchanged(now: int)
    ensures !TokenValid(Missing, now) && SlotAfterCheck(Missing, now) == Missing
  {
  }

  /** Text that does not parse is removed and reported invalid. */
  lemma UnparsableRemoved(now: int)
    ensures !TokenValid(Unparsable, now) && SlotAfterCheck(Unparsable, now) == Missing
  {
  }

  /** A parsed value without a numeric expiry never expires. */
  lemma UndefinedExpiryValid(now: int)
    ensures TokenValid(Parsed(None), now)
  {
  }

  /** The operations a page performs on the store, with their times. */
  datatype StoreOp = Set(at: int) | Check(at: int) | Clear

  function Apply(s: StoredToken, op: StoreOp): StoredToken {
    match op
    case Set(t) => TokenSetAt(t)
    case Check(t) => SlotAfterCheck(s, t)
    case Clear => Missing
  }

  /** The slot after a sequence of operations. */
  function Run(s: StoredToken, ops: seq<StoreOp>): StoredToken
    decreases |ops|
  {
    if |ops| == 0 then s else Run(Apply(s, ops[0]), ops[1..])
  }

  /** The results of the checks in a sequence of operations, in order. */
  function CheckResults(s: StoredToken, ops: seq<StoreOp>): (r: seq<bool>)
    ensures |r| <= |ops|
    decreases |ops|
  {
    if |ops| == 0 then []
    else
      var rest := CheckResults(Apply(s, ops[0]), ops[1..]);
      if ops[0].Check? then [TokenValid(s, ops[0].at)] + rest else rest
  }

  predicate NoSet(ops: seq<StoreOp>) {
    forall i :: 0 <= i < |ops| ==> !ops[i].Set?
  }

  /** Once a check has failed (expired, unparsable, cleared or never set), every later check
      fails until the next `setPasswordToken`. */
  lemma {:induction false} FailedCheckIsFinal(s: StoredToken, now: int, ops: seq<StoreOp>)
    requires !TokenValid(s, now)
    requires NoSet(ops)
    ensures forall i :: 0 <= i < |CheckResults(SlotAfterCheck(s, now), ops)| ==>
      !CheckResults(SlotAfterCheck(s, now), ops)[i]
    ensures Run(SlotAfterCheck(s, now), ops) == Missing
    decreases |ops|
  {
    if |ops| > 0 {
      assert NoSet(ops[1..]) by {
        forall i | 0 <= i < |ops[1..]| ensures !ops[1..][i].Set? {
          assert ops[1..][i] == ops[i + 1];
        }
      }
      var next := Apply(Missing, ops[0]);
      assert next == Missing;
      assert SlotAfterCheck(Missing, now) == Missing;
      FailedCheckIsFinal(Missing, now, ops[1..]);
    }
  }

  /** A token set at `t` and only checked (never cleared) passes every check made within
      30 minutes of `t`. */
  lemma {:induction false} ChecksWithinWindowPass(t: int, ops: seq<StoreOp>)
    requires forall i :: 0 <= i < |ops| ==> ops[i].Check? && t <= ops[i].at <= t + ExpirationTime
    ensures Run(TokenSetAt(t), ops) == TokenSetAt(t)
    ensures forall i :: 0 <= i < |CheckResults(TokenSetAt(t), ops)| ==> CheckResults(TokenSetAt(t), ops)[i]
    decreases |ops|
  {
    if |ops| > 0 {
      assert SlotAfterCheck(TokenSetAt(t), ops[0].at) == TokenSetAt(t);
      assert forall i :: 0 <= i < |ops[1..]| ==> ops[1..][i] == ops[i + 1];
      ChecksWithinWindowPass(t, ops[1..]);
    }
  }
}

/** The shared edit password of the timeline, letter and gift panels. */
module SharedPassword {
  const CorrectPassword: string := "241214"

  /** `password === CORRECT_PASSWORD` (or the literal `'241214'`). */
  predicate PasswordAccepted(password: string)
    ensures PasswordAccepted(password) ==> |password| == 6
  {
    password == CorrectPassword
  }

  /** The empty string the password modal passes on a token bypass is never accepted. */
  lemma EmptyPasswordRejected()
    ensures !PasswordAccepted("")
  {
  }
}
