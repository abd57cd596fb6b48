/** The password-reset page, client/src/pages/forms/ForgotPassword.jsx: an
    e-mail step, a code step and a new-password step, the page moving forward
    one step per successful request. */
module ForgotPassword {
  import opened Js
  import opened CodeCells

  /** `[^\s@]`: neither white space nor "@". */
  predicate Plain(c: char)
  {
    !IsSpace(c) && c != '@'
  }

  predicate AllPlain(s: string)
  {
    forall i :: 0 <= i < |s| ==> Plain(s[i])
  }

  /** isValidEmail, the pattern `^[^\s@]+@[^\s@]+\.[^\s@]+$` read as positions:
      an "@" at `a` and a "." at `d` cut the text into three non-empty runs of
      plain characters. */
  predicate IsValidEmail(s: string)
  {
    exists a, d :: 0 < a && a + 1 < d && d + 1 < |s|
                   && s[a] == '@' && s[d] == '.'
                   && AllPlain(s[..a]) && AllPlain(s[a + 1..d]) && AllPlain(s[d + 1..])
  }

  /** The same condition said plainly: no white space, exactly one "@", a
      non-empty part before it, and a "." inside the part after it with a
      character on each side. */
  predicate EmailShape(s: string)
  {
    && (forall i :: 0 <= i < |s| ==> !IsSpace(s[i]))
    && (exists a :: 0 < a < |s| && s[a] == '@'
                    && (forall i :: 0 <= i < |s| && s[i] == '@' ==> i == a)
                    && (exists d :: a + 1 < d < |s| - 1 && s[d] == '.'))
  }

  lemma ShapeFromPattern(s: string, a: nat, d: nat)
    requires 0 < a && a + 1 < d && d + 1 < |s| && s[a] == '@' && s[d] == '.'
    requires AllPlain(s[..a]) && AllPlain(s[a + 1..d]) && AllPlain(s[d + 1..])
    ensures EmailShape(s)
  {
    forall i | 0 <= i < |s|
      ensures !IsSpace(s[i]) && (s[i] == '@' ==> i == a)
    {
      if i < a {
        assert s[i] == s[..a][i];
      } else if a < i < d {
        assert s[i] == s[a + 1..d][i - a - 1];
      } else if d < i {
        assert s[i] == s[d + 1..][i - d - 1];
      }
    }
  }

  lemma PatternFromShape(s: string, a: nat, d: nat)
    requires forall i :: 0 <= i < |s| ==> !IsSpace(s[i])
    requires 0 < a < |s| && s[a] == '@' && forall i :: 0 <= i < |s| && s[i] == '@' ==> i == a
    requires a + 1 < d < |s| - 1 && s[d] == '.'
    ensures IsValidEmail(s)
  {
    var local, host, top := s[..a], s[a + 1..d], s[d + 1..];
    forall i | 0 <= i < |local| ensures Plain(local[i]) { assert local[i] == s[i]; }
    forall i | 0 <= i < |host| ensures Plain(host[i]) { assert host[i] == s[a + 1 + i]; }
    forall i | 0 <= i < |top| ensures Plain(top[i]) { assert top[i] == s[d + 1 + i]; }
  }

  /** The pattern accepts exactly the texts of that shape. */
  lemma ValidEmailIffShape(s: string)
    ensures IsValidEmail(s) <==> EmailShape(s)
  {
    if IsValidEmail(s) {
      var a, d :| 0 < a && a + 1 < d && d + 1 < |s|
                  && s[a] == '@' && s[d] == '.'
                  && AllPlain(s[..a]) && AllPlain(s[a + 1..d]) && AllPlain(s[d + 1..]);
      ShapeFromPattern(s, a, d);
    }
    if EmailShape(s) {
      var a :| 0 < a < |s| && s[a] == '@'
               && (forall i :: 0 <= i < |s| && s[i] == '@' ==> i == a)
               && (exists d :: a + 1 < d < |s| - 1 && s[d] == '.');
      var d :| a + 1 < d < |s| - 1 && s[d] == '.';
      PatternFromShape(s, a, d);
    }
  }

  /** The step shown: the verified flag wins over the sent flag. */
  datatype Phase = EnterEmail | EnterCode | EnterPassword

  function Rank(p: Phase): nat
  {
    match p
    case EnterEmail => 0
    case EnterCode => 1
    case EnterPassword => 2
  }

  function PhaseOf(codeSent: bool, codeVerified: bool): (p: Phase)
    ensures p == EnterPassword <==> codeVerified
    ensures p == EnterEmail <==> !codeSent && !codeVerified
  {
    if codeVerified then EnterPassword else if codeSent then EnterCode else EnterEmail
  }

  class ResetForm {
    var email: string
    var code: seq<string>
    var newPassword: string
    var confirmPassword: string
    var codeSent: bool
    var codeVerified: bool

    constructor ()
      ensures email == "" && newPassword == "" && confirmPassword == ""
      ensures |code| == 6 && forall i :: 0 <= i < |code| ==> code[i] == ""
      ensures !codeSent && !codeVerified
    {
      email := "";
      code := ["", "", "", "", "", ""];
      newPassword := "";
      confirmPassword := "";
      codeSent := false;
      codeVerified := false;
    }

    function Phase(): Phase
      reads this
    {
      PhaseOf(codeSent, codeVerified)
    }

    /** handleSendVerificationCode. An invalid address is refused before any
        request; otherwise a successful request moves to the code step. */
    method SendCode(ok: bool, serverMessage: string) returns (effects: seq<Effect>)
      modifies this
      ensures email == old(email) && code == old(code) && codeVerified == old(codeVerified)
      ensures newPassword == old(newPassword) && confirmPassword == old(confirmPassword)
      ensures !IsValidEmail(email) ==>
                codeSent == old(codeSent) && effects == [ToastError("Please enter a valid email address.")]
      ensures IsValidEmail(email) && ok ==>
                codeSent && effects == [Send(POST, "/user/forgot-password"), ToastSuccess(serverMessage)]
      ensures IsValidEmail(email) && !ok ==>
                codeSent == old(codeSent)
                && effects == [Send(POST, "/user/forgot-password"), ToastError("Failed to send verification code. Please try again.")]
      ensures Rank(Phase()) >= old(Rank(Phase()))
    {
      if !IsValidEmail(email) {
        return [ToastError("Please enter a valid email address.")];
      }
      effects := [Send(POST, "/user/forgot-password")];
      if ok {
        effects := effects + [ToastSuccess(serverMessage)];
        codeSent := true;
      } else {
        effects := effects + [ToastError("Failed to send verification code. Please try again.")];
      }
    }

    /** handleVerifyVerificationCode: the joined code is sent; a success moves
        to the password step. */
    method VerifyCode(ok: bool, serverMessage: string) returns (sentCode: string, effects: seq<Effect>)
      modifies this
      ensures email == old(email) && code == old(code) && codeSent == old(codeSent)
      ensures newPassword == old(newPassword) && confirmPassword == old(confirmPassword)
      ensures sentCode == Join(code)
      ensures ok ==> codeVerified && effects == [Send(POST, "/user/verify-verification-code"), ToastSuccess(serverMessage)]
      ensures !ok ==> codeVerified == old(codeVerified)
                      && effects == [Send(POST, "/user/verify-verification-code"),
                                     ToastError("Failed to verify verification code. Please try again.")]
      ensures Rank(Phase()) >= old(Rank(Phase()))
    {
      sentCode := Join(code);
      effects := [Send(POST, "/user/verify-verification-code")];
      if ok {
        effects := effects + [ToastSuccess(serverMessage)];
        codeVerified := true;
      } else {
        effects := effects + [ToastError("Failed to verify verification code. Please try again.")];
      }
    }

    /** handleUpdatePassword: differing passwords are refused before any
        request; a success goes to the login page. */
    method UpdatePassword(ok: bool, serverMessage: string) returns (effects: seq<Effect>)
      ensures newPassword != confirmPassword ==> effects == [ToastError("Passwords do not match. Please re-enter.")]
      ensures newPassword == confirmPassword && ok ==>
                effects == [Send(POST, "/user/update-forgot-password"), ToastSuccess(serverMessage), Navigate("/login")]
      ensures newPassword == confirmPassword && !ok ==>
                effects == [Send(POST, "/user/update-forgot-password"), ToastError("Failed to update password. Please try again.")]
    {
      if newPassword != confirmPassword {
        return [ToastError("Passwords do not match. Please re-enter.")];
      }
      effects := [Send(POST, "/user/update-forgot-password")];
      if ok {
        effects := effects + [ToastSuccess(serverMessage), Navigate("/login")];
      } else {
        effects := effects + [ToastError("Failed to update password. Please try again.")];
      }
    }

    /** handleInputChange: a numeric value is written to its cell; anything
        else leaves the code and shows a toast. */
    method InputChange(index: nat, value: string) returns (toast: Option<Effect>)
      requires index < |code|
      modifies this
      ensures email == old(email) && codeSent == old(codeSent) && codeVerified == old(codeVerified)
      ensures newPassword == old(newPassword) && confirmPassword == old(confirmPassword)
      ensures IsNumericText(value) ==> code == old(code)[index := value] && toast == None
      ensures !IsNumericText(value) ==>
                code == old(code) && toast == Some(ToastError("Please enter only numeric characters"))
    {
      if IsNumericText(value) {
        code := code[index := value];
        toast := None;
      } else {
        toast := Some(ToastError("Please enter only numeric characters"));
      }
    }

    /** handleKeyDown: Backspace in an empty cell after the first clears the
        cell before it. */
    method KeyDown(index: nat, key: string)
      requires index < |code|
      modifies this
      ensures email == old(email) && codeSent == old(codeSent) && codeVerified == old(codeVerified)
      ensures newPassword == old(newPassword) && confirmPassword == old(confirmPassword)
      ensures key == "Backspace" && index > 0 && old(code)[index] == "" ==> code == old(code)[index - 1 := ""]
      ensures !(key == "Backspace" && index > 0 && old(code)[index] == "") ==> code == old(code)
    {
      if key == "Backspace" && index > 0 && code[index] == "" {
        NumericCellText("");
        var _ := InputChange(index - 1, "");
      }
    }

    /** handlePaste: a run of one or more digits no longer than the current
        code replaces the whole code, one digit per cell, so the code can get
        shorter; anything else leaves it and shows a toast. */
    method Paste(data: string) returns (toast: Option<Effect>)
      modifies this
      ensures email == old(email) && codeSent == old(codeSent) && codeVerified == old(codeVerified)
      ensures newPassword == old(newPassword) && confirmPassword == old(confirmPassword)
      ensures data != "" && AllDigits(data) && |data| <= |old(code)| ==>
                code == Split(data) && Join(code) == data && toast == None
      ensures !(data != "" && AllDigits(data) && |data| <= |old(code)|) ==>
                code == old(code) && toast == Some(ToastError("Invalid input. Please paste only numeric characters."))
    {
      if data != "" && AllDigits(data) && |data| <= |code| {
        // the slice to the current length keeps every cell under the guard
        code := Split(data);
        JoinSplit(data);
        toast := None;
      } else {
        toast := Some(ToastError("Invalid input. Please paste only numeric characters."));
      }
    }
  }
}
