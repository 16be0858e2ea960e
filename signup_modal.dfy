/** The sign-up dialog (components/SignupModal.tsx): a form whose id
    availability and error message change as the user edits the id, checks
    it and submits. The two server calls are parameters: the outcome of the
    id check and the outcome of the sign-up request. */
module SignupModal {
  import opened Common
  import opened Text

  const EmptyIdMessage := "아이디를 입력해주세요."
  const TakenIdMessage := "이미 사용 중인 아이디입니다."
  const CheckFailedMessage := "아이디 중복 확인에 실패했습니다."
  const MissingFieldsMessage := "모든 필드를 입력해주세요."
  const MismatchMessage := "비밀번호가 일치하지 않습니다."
  const UncheckedIdMessage := "아이디 중복 확인을 해주세요."
  const SignupFailedMessage := "회원가입에 실패했습니다."
  const SignupErrorMessage := "회원가입 중 오류가 발생했습니다."

  /** How `checkUserIdExists` ended: it threw, or it answered whether the id is taken. */
  datatype CheckOutcome = CheckThrew | Answered(taken: bool)

  /** How `signup` ended: it threw, or it answered with a success flag and an
      optional message. */
  datatype SignupOutcome = SignupThrew | Replied(success: bool, message: Option<string>)

  /** The first check of `handleSubmit` that refuses the form, in the order
      they run, or None when the form may be sent. */
  function SubmitRefusal(userId: string, password: string, confirmPassword: string,
                         nickname: string, email: string, isIdAvailable: Option<bool>): (r: Option<string>)
    ensures r.None? <==>
      (userId != "" && password != "" && confirmPassword != "" && nickname != "" && email != ""
       && password == confirmPassword && isIdAvailable == Some(true))
    ensures (userId == "" || password == "" || confirmPassword == "" || nickname == "" || email == "") ==>
      r == Some(MissingFieldsMessage)
    ensures r == Some(MismatchMessage) ==> password != confirmPassword
    ensures r == Some(UncheckedIdMessage) ==> password == confirmPassword && isIdAvailable != Some(true)
  {
    if userId == "" || password == "" || confirmPassword == "" || nickname == "" || email == "" then
      Some(MissingFieldsMessage)
    else if password != confirmPassword then Some(MismatchMessage)
    else if isIdAvailable != Some(true) then Some(UncheckedIdMessage)
    else None
  }

  class SignupForm {
    var userId: string
    var password: string
    var confirmPassword: string
    var nickname: string
    var email: string
    var error: string
    var isIdAvailable: Option<bool>
    var signedUp: bool
    /** The id the current availability answer is about. */
    ghost var checkedId: Option<string>

    /** An availability answer is always about the id now in the field, and
        that id is not empty once trimmed (`IsBlank` is `trim() === ''`, by
        `Text.TrimEmptyIffBlank`). */
    ghost predicate Valid()
      reads this
    {
      isIdAvailable.Some? ==> checkedId == Some(userId) && !IsBlank(userId)
    }

    constructor ()
      ensures Valid()
      ensures userId == "" && password == "" && confirmPassword == "" && nickname == "" && email == ""
      ensures error == "" && isIdAvailable.None? && !signedUp
    {
      userId := "";
      password := "";
      confirmPassword := "";
      nickname := "";
      email := "";
      error := "";
      isIdAvailable := None;
      signedUp := false;
      checkedId := None;
    }

    /** The id field's `onChange`: the new id has not been checked. */
    method EditUserId(value: string)
      requires Valid()
      modifies this
      ensures Valid()
      ensures userId == value && isIdAvailable.None?
      ensures error == old(error) && password == old(password) && confirmPassword == old(confirmPassword)
      ensures nickname == old(nickname) && email == old(email) && signedUp == old(signedUp)
    {
      userId := value;
      isIdAvailable := None;
    }

    /** The `onChange` of the password, confirmation, nickname and email
        fields: only the edited values change; the availability answer,
        which is about the id, is kept. */
    method EditDetails(newPassword: string, newConfirmPassword: string, newNickname: string, newEmail: string)
      requires Valid()
      modifies this
      ensures Valid()
      ensures password == newPassword && confirmPassword == newConfirmPassword
      ensures nickname == newNickname && email == newEmail
      ensures userId == old(userId) && isIdAvailable == old(isIdAvailable)
      ensures error == old(error) && signedUp == old(signedUp)
    {
      password := newPassword;
      confirmPassword := newConfirmPassword;
      nickname := newNickname;
      email := newEmail;
    }

    /** `checkUserId`: a blank id is refused without asking and leaves the
        availability as it was; otherwise the id is available exactly when it
        is not taken, and the error says so; a failed check only sets the
        error. */
    method CheckUserId(outcome: CheckOutcome)
      requires Valid()
      modifies this
      ensures Valid()
      ensures userId == old(userId) && password == old(password) && confirmPassword == old(confirmPassword)
      ensures nickname == old(nickname) && email == old(email) && signedUp == old(signedUp)
      ensures IsBlank(userId) ==> error == EmptyIdMessage && isIdAvailable == old(isIdAvailable)
      ensures !IsBlank(userId) && outcome.Answered? ==>
        isIdAvailable == Some(!outcome.taken)
        && (error == TakenIdMessage <==> outcome.taken) && (!outcome.taken ==> error == "")
      ensures !IsBlank(userId) && outcome.CheckThrew? ==>
        error == CheckFailedMessage && isIdAvailable == old(isIdAvailable)
    {
      if IsBlank(userId) {
        error := EmptyIdMessage;
        return;
      }
      match outcome {
        case Answered(taken) =>
          isIdAvailable := Some(!taken);
          checkedId := Some(userId);
          error := if taken then TakenIdMessage else "";
        case CheckThrew =>
          error := CheckFailedMessage;
      }
    }

    /** `handleSubmit`: the first refusing check sets its message and nothing
        is sent; otherwise the sign-up is sent, and its failure sets the
        server's message (or a default), or the error message when it threw.
        The answer says whether the sign-up was sent. */
    method HandleSubmit(outcome: SignupOutcome) returns (sent: bool)
      requires Valid()
      modifies this
      ensures Valid()
      ensures userId == old(userId) && password == old(password) && confirmPassword == old(confirmPassword)
      ensures nickname == old(nickname) && email == old(email) && isIdAvailable == old(isIdAvailable)
      ensures var refusal := SubmitRefusal(userId, password, confirmPassword, nickname, email, isIdAvailable);
        && (sent <==> refusal.None?)
        && (refusal.Some? ==> error == refusal.value && signedUp == old(signedUp))
      ensures sent ==> checkedId == Some(userId) && !IsBlank(userId) && isIdAvailable == Some(true)
      ensures sent && outcome.Replied? && outcome.success ==> signedUp && error == old(error)
      ensures sent && outcome.Replied? && !outcome.success ==>
        error == OrElse(outcome.message, SignupFailedMessage) && signedUp == old(signedUp)
      ensures sent && outcome.SignupThrew? ==> error == SignupErrorMessage && signedUp == old(signedUp)
    {
      if userId == "" || password == "" || confirmPassword == "" || nickname == "" || email == "" {
        error := MissingFieldsMessage;
        return false;
      }
      if password != confirmPassword {
        error := MismatchMessage;
        return false;
      }
      if isIdAvailable != Some(true) {
        error := UncheckedIdMessage;
        return false;
      }
      match outcome {
        case Replied(success, message) =>
          if success {
            signedUp := true;
          } else {
            error := OrElse(message, SignupFailedMessage);
          }
        case SignupThrew =>
          error := SignupErrorMessage;
      }
      return true;
    }
  }
}
