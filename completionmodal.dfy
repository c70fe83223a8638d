/**
 * The completion dialog: the minutes field is read with `parseInt` and must give a
 * non-zero number; on success the record is handed to the parent and the form resets.
 */
module CompletionModal {
  import opened Wrappers
  import opened JsText
  import opened Types

  const TimeErrorMessage := "所要時間を正しく入力してください"

  /** The outcome of checking the minutes field. */
  datatype TimeCheck = Accepted(minutes: int) | Rejected

  /**
   * `!timeNumber || isNaN(timeNumber)` on `parseInt(time)`: NaN and zero (also `-0`) are
   * rejected, every other number is accepted as it is, negative ones included.
   */
  function CheckTime(time: string): (r: TimeCheck)
    ensures r.Accepted? <==> ParseInt(time).Some? && ParseInt(time).value != 0
    ensures r.Accepted? ==> r.minutes == ParseInt(time).value && r.minutes != 0
  {
    match ParseInt(time)
    case Some(n) => if n == 0 then Rejected else Accepted(n)
    case None => Rejected
  }

  /** A non-zero number typed as digits, followed by anything but a digit, is accepted as that number. */
  lemma {:induction false} AcceptsPrintedMinutes(n: int, rest: string)
    requires n != 0
    requires rest == [] || !IsDecimalDigit(rest[0])
    ensures CheckTime(IntToString(n) + rest) == Accepted(n)
  {
    ParseIntReadsLeadingNumeral(n, rest);
  }

  /** An empty or blank field is rejected. */
  lemma {:induction false} RejectsBlank(time: string)
    requires AllWhiteSpace(time)
    ensures CheckTime(time) == Rejected
  {
  }

  /** A field starting with anything but white space, a sign or a digit is rejected. */
  lemma {:induction false} RejectsNonNumeric(time: string)
    requires time != [] && !IsWhiteSpace(time[0]) && !IsDecimalDigit(time[0])
    requires time[0] != '-' && time[0] != '+'
    ensures CheckTime(time) == Rejected
  {
    NoLeadingWhiteSpace(time);
  }

  lemma {:induction false} RejectedTimeExamples()
    ensures CheckTime("") == Rejected
    ensures CheckTime("abc") == Rejected
    ensures CheckTime("0") == Rejected
  {
    RejectsBlank("");
    RejectsNonNumeric("abc");
    assert "0" == IntToString(0) + "";
    ParseIntReadsLeadingNumeral(0, "");
  }

  lemma {:induction false} AcceptedTimeExample()
    ensures CheckTime("30") == Accepted(30)
  {
    assert NatToString(3) == "3";
    assert IntToString(30) == "30";
    AcceptsPrintedMinutes(30, "");
    assert IntToString(30) + "" == "30";
  }

  /** `parseInt` stops at the first non-digit, so trailing text is ignored. */
  lemma {:induction false} TrailingTextExample()
    ensures CheckTime("30abc") == Accepted(30)
  {
    assert NatToString(3) == "3";
    assert IntToString(30) == "30";
    AcceptsPrintedMinutes(30, "abc");
    assert IntToString(30) + "abc" == "30abc";
  }

  lemma {:induction false} NegativeTimeExample()
    ensures CheckTime("-5") == Accepted(-5)
  {
    assert NatToString(5) == "5";
    assert IntToString(-5) == "-5";
    AcceptsPrintedMinutes(-5, "");
    assert IntToString(-5) + "" == "-5";
  }

  /** The dialog's fields and the records handed to the parent so far. */
  class ModalState {
    var time: string
    var difficulty: string
    var focus: string
    var error: string
    var completions: seq<CompletionData>

    /** An empty minutes field, "normal" difficulty and focus, no error. */
    constructor()
      ensures time == "" && difficulty == "normal" && focus == "normal" && error == ""
      ensures completions == []
    {
      time := "";
      difficulty := "normal";
      focus := "normal";
      error := "";
      completions := [];
    }

    /** Typing in the minutes field replaces it and clears the error. */
    method EditTime(value: string)
      modifies this
      ensures time == value && error == ""
      ensures difficulty == old(difficulty) && focus == old(focus) && completions == old(completions)
    {
      time := value;
      error := "";
    }

    /** Choosing a difficulty replaces it; the error stays. */
    method EditDifficulty(value: string)
      modifies this
      ensures difficulty == value
      ensures time == old(time) && focus == old(focus) && error == old(error) && completions == old(completions)
    {
      difficulty := value;
    }

    /** Choosing a focus level replaces it; the error stays. */
    method EditFocus(value: string)
      modifies this
      ensures focus == value
      ensures time == old(time) && difficulty == old(difficulty) && error == old(error) && completions == old(completions)
    {
      focus := value;
    }

    /**
     * `handleComplete`: a rejected field sets the error and changes nothing else; an
     * accepted one clears the error, hands `{time, difficulty, focus}` to the parent and
     * resets the form.
     */
    method HandleComplete()
      modifies this
      ensures CheckTime(old(time)).Rejected? ==>
        error == TimeErrorMessage && completions == old(completions)
        && time == old(time) && difficulty == old(difficulty) && focus == old(focus)
      ensures CheckTime(old(time)).Accepted? ==>
        error == ""
        && completions == old(completions) + [CompletionData(CheckTime(old(time)).minutes, old(difficulty), old(focus))]
        && time == "" && difficulty == "normal" && focus == "normal"
    {
      var check := CheckTime(time);
      if check.Rejected? {
        error := TimeErrorMessage;
        return;
      }
      error := "";
      completions := completions + [CompletionData(check.minutes, difficulty, focus)];
      time := "";
      difficulty := "normal";
      focus := "normal";
    }
  }
}
