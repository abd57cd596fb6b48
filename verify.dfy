/** What the two code-entry pages share: a code is typed one character per
    cell, and what is sent is the cells joined in order. */
module CodeCells {
  import opened Js

  /** `cells.join("")`. */
  function Join(cells: seq<string>): string
  {
    if cells == [] then "" else cells[0] + Join(cells[1..])
  }

  /** `data.split("")`: one cell per character. */
  function Split(data: string): (cells: seq<string>)
    ensures |cells| == |data|
    ensures forall i :: 0 <= i < |data| ==> cells[i] == [data[i]]
  {
    seq(|data|, i requires 0 <= i < |data| => [data[i]])
  }

  /** Splitting a text into cells and joining them gives the text back. */
  lemma {:induction false} JoinSplit(data: string)
    ensures Join(Split(data)) == data
  {
    if data != [] {
      JoinSplit(data[1..]);
      assert Split(data)[1..] == Split(data[1..]);
      assert [data[0]] + data[1..] == data;
    }
  }

  /** A joined code is as long as its cells together; one-character cells give
      one character each. */
  lemma {:induction false} JoinLength(cells: seq<string>)
    requires forall i :: 0 <= i < |cells| ==> |cells[i]| <= 1
    ensures |Join(cells)| <= |cells|
  {
    if cells != [] {
      JoinLength(cells[1..]);
    }
  }
}

/** The e-mail verification page, client/src/pages/forms/Verify.jsx: six cells
    edited one at a time or by a paste, then sent joined. */
module Verify {
  import opened Js
  import opened CodeCells

  const CodeLength := 6

  /** handlePaste: the pasted characters overwrite the first cells and the
      rest keep their content. */
  function PastePrefix(cells: seq<string>, data: string): (r: seq<string>)
    requires |data| <= |cells|
    ensures |r| == |cells|
    ensures r[..|data|] == Split(data) && r[|data|..] == cells[|data|..]
  {
    Split(data) + cells[|data|..]
  }

  /** How the verification request ended: a reply with its status, whatever
      it is, or no reply at all. */
  datatype Reply = Status(code: int) | Failed

  class VerifyForm {
    var cells: seq<string>

    predicate Valid()
      reads this
    {
      |cells| == CodeLength
    }

    constructor ()
      ensures Valid() && forall i :: 0 <= i < |cells| ==> cells[i] == ""
    {
      cells := ["", "", "", "", "", ""];
    }

    /** handleInputChange: a numeric value (the empty one included) is written
        to its cell; anything else leaves the cells and shows a toast. */
    method InputChange(index: nat, value: string) returns (toast: Option<Effect>)
      requires Valid() && index < |cells|
      modifies this
      ensures Valid()
      ensures IsNumericText(value) ==> cells == old(cells)[index := value] && toast == None
      ensures !IsNumericText(value) ==>
                cells == old(cells) && toast == Some(ToastError("Please enter only numeric characters"))
    {
      if IsNumericText(value) {
        cells := cells[index := value];
        toast := None;
      } else {
        toast := Some(ToastError("Please enter only numeric characters"));
      }
    }

    /** handleKeyDown: Backspace in an empty cell after the first clears the
        cell before it. */
    method KeyDown(index: nat, key: string)
      requires Valid() && index < |cells|
      modifies this
      ensures Valid()
      ensures key == "Backspace" && index > 0 && old(cells)[index] == "" ==> cells == old(cells)[index - 1 := ""]
      ensures !(key == "Backspace" && index > 0 && old(cells)[index] == "") ==> cells == old(cells)
    {
      if key == "Backspace" && index > 0 && cells[index] == "" {
        NumericCellText("");
        var _ := InputChange(index - 1, "");
      }
    }

    /** handlePaste: text of at most six digits (the empty text included)
        overwrites the first cells, one character each, in a forEach over its
        characters; anything else leaves the cells and shows a toast. */
    method Paste(data: string) returns (toast: Option<Effect>)
      requires Valid()
      modifies this
      ensures Valid()
      ensures AllDigits(data) && |data| <= CodeLength ==> cells == PastePrefix(old(cells), data) && toast == None
      ensures !(AllDigits(data) && |data| <= CodeLength) ==>
                cells == old(cells) && toast == Some(ToastError("Invalid input. Please paste only numeric characters."))
    {
      if !(AllDigits(data) && |data| <= |cells|) {
        return Some(ToastError("Invalid input. Please paste only numeric characters."));
      }
      var current := cells;
      var copy := new string[|current|](k requires 0 <= k < |current| => current[k]);
      var i := 0;
      while i < |data|
        invariant i <= |data| && copy.Length == |current|
        invariant forall j :: 0 <= j < i ==> copy[j] == [data[j]]
        invariant forall j :: i <= j < copy.Length ==> copy[j] == current[j]
      {
        copy[i] := [data[i]];
        i := i + 1;
      }
      cells := copy[..];
      assert cells == PastePrefix(current, data);
      toast := None;
    }

    /** The code sent for verification. */
    function Code(): string
      reads this
    {
      Join(cells)
    }
  }

  /** Pasting a full six-digit code makes the code sent exactly the pasted text. */
  lemma PasteFullCode(cells: seq<string>, data: string)
    requires |cells| == CodeLength && |data| == CodeLength
    ensures Join(PastePrefix(cells, data)) == data
  {
    assert PastePrefix(cells, data) == Split(data);
    JoinSplit(data);
  }

  /** handleVerification: the code is sent, and the reply decides the toast
      and whether the page moves to the login page. Only a 2xx status reaches
      the status test; any other status, like a missing reply, is thrown into
      the catch. */
  function VerificationEffects(reply: Reply): (effects: seq<Effect>)
    ensures effects != [] && effects[0] == Send(POST, "/user/verify-email")
    ensures Navigate("/login") in effects <==> reply == Status(200)
    ensures reply == Status(200) ==> effects == [Send(POST, "/user/verify-email"), ToastSuccess("Email verified successfully"), Navigate("/login")]
    ensures reply.Status? && Resolves(reply.code) && reply.code != 200 ==>
              effects == [Send(POST, "/user/verify-email"), ToastError("Email verification failed")]
    ensures reply.Failed? || (reply.Status? && !Resolves(reply.code)) ==>
              effects == [Send(POST, "/user/verify-email"), ToastError("An error occurred during email verification")]
  {
    [Send(POST, "/user/verify-email")]
    + match reply
      case Status(code) =>
        if !Resolves(code) then [ToastError("An error occurred during email verification")]
        else if code == 200 then [ToastSuccess("Email verified successfully"), Navigate("/login")]
        else [ToastError("Email verification failed")]
      case Failed => [ToastError("An error occurred during email verification")]
  }
}
