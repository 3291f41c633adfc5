/** The registration page's view state and its event handlers. The page keeps
    the chosen role tab, the selected interests, the custom-interest text box
    and the admin registration code with its error message; submitting the
    form either reports an invalid admin code or picks the page to go to. */
module Register {
  import opened Interests
  import opened Whitespace

  datatype Option<T> = None | Some(value: T)

  /** The code an admin registration must carry. */
  const AdminRegistrationCode: string := "GEC2025$%"

  /** The message shown under the admin-code field when the code is wrong. */
  const InvalidAdminCodeMessage: string := "Invalid admin code. Please enter the correct code."

  /** The label of the checkbox that reveals the custom-interest text box
      instead of selecting anything. */
  const OtherLabel: string := "Other"

  /** What pressing "Register" does. */
  datatype Outcome = Rejected(message: string) | Redirect(path: string)

  /** The submit decision for the chosen role and the entered code, where
      `expected` is the admin registration code. */
  function RegisterOutcome(role: string, code: string, expected: string): (o: Outcome)
    ensures o.Rejected? <==> role == "admin" && code != expected
    ensures o.Rejected? ==> o.message != []
    ensures o.Redirect? && role == "mentor" ==> o.path == "/pending-approval"
    ensures o.Redirect? && role != "mentor" ==> o.path == "/login"
  {
    if role == "admin" && code != expected then Rejected(InvalidAdminCodeMessage)
    else if role == "mentor" then Redirect("/pending-approval")
    else Redirect("/login")
  }

  /** The page a registration leads to, if any: only a wrong admin code
      stops it, a mentor waits for approval, everyone else logs in. */
  lemma RegisterDestinations(role: string, code: string)
    ensures role == "admin" && code != AdminRegistrationCode ==>
      RegisterOutcome(role, code, AdminRegistrationCode) == Rejected(InvalidAdminCodeMessage)
    ensures role == "admin" && code == AdminRegistrationCode ==>
      RegisterOutcome(role, code, AdminRegistrationCode) == Redirect("/login")
    ensures role == "mentor" ==>
      RegisterOutcome(role, code, AdminRegistrationCode) == Redirect("/pending-approval")
    ensures role != "admin" && role != "mentor" ==>
      RegisterOutcome(role, code, AdminRegistrationCode) == Redirect("/login")
  {
  }

  /** The custom interest the "Add" button would append, if any: the trimmed
      text, when it is non-empty and not selected yet. */
  function AcceptedCustomInterest(selected: seq<string>, text: string): (a: Option<string>)
    ensures a.Some? <==> Trim(text) != [] && Trim(text) !in selected
    ensures a.Some? ==> a.value == Trim(text) && a.value !in selected
    ensures a.Some? ==> !IsWhiteSpace(a.value[0]) && !IsWhiteSpace(a.value[|a.value| - 1])
  {
    var t := Trim(text);
    if t != [] && t !in selected then Some(t) else None
  }

  /** Text that is only white space is never accepted, whatever is selected. */
  lemma BlankCustomInterestRejected(selected: seq<string>, text: string)
    requires AllWhiteSpace(text)
    ensures AcceptedCustomInterest(selected, text) == None
  {
    TrimEmpty(text);
  }

  class RegisterForm {
    var role: string
    var selectedInterests: seq<string>
    var otherInterest: string
    var showOtherInterest: bool
    var adminCode: string
    var adminCodeError: string

    /** Every handler keeps the selected interests free of duplicates. */
    ghost predicate Valid()
      reads this
    {
      NoDuplicates(selectedInterests)
    }

    /** Whether the checkbox for `interest` is ticked: it is selected, or it
        is the "Other" box and the custom text box is showing. */
    predicate Checked(interest: string)
      reads this
    {
      interest in selectedInterests || (interest == OtherLabel && showOtherInterest)
    }

    /** The page opens on the mentee tab with nothing entered. */
    constructor ()
      ensures Valid()
      ensures role == "mentee" && selectedInterests == []
      ensures otherInterest == [] && !showOtherInterest
      ensures adminCode == [] && adminCodeError == []
    {
      role := "mentee";
      selectedInterests := [];
      otherInterest := "";
      showOtherInterest := false;
      adminCode := "";
      adminCodeError := "";
    }

    /** Switching the role tab. */
    method SetRole(value: string)
      modifies this`role
      ensures role == value
    {
      role := value;
    }

    /** A click on an interest checkbox. "Other" only reveals the text box;
        any other interest is added at the end or removed. */
    method HandleInterestChange(interest: string)
      requires Valid()
      modifies this`showOtherInterest, this`selectedInterests
      ensures Valid()
      ensures interest == OtherLabel ==>
        showOtherInterest && selectedInterests == old(selectedInterests)
      ensures interest != OtherLabel ==>
        showOtherInterest == old(showOtherInterest)
        && selectedInterests == Toggle(old(selectedInterests), interest)
        && Checked(interest) == !old(Checked(interest))
    {
      if interest == OtherLabel {
        showOtherInterest := true;
        return;
      }
      ToggleNoDuplicates(selectedInterests, interest);
      selectedInterests := Toggle(selectedInterests, interest);
    }

    /** Typing into the custom-interest text box. */
    method SetOtherInterest(value: string)
      modifies this`otherInterest
      ensures otherInterest == value
    {
      otherInterest := value;
    }

    /** The "Add" button next to the custom-interest text box: the trimmed
        text is appended and the box cleared; blank or already selected text
        changes nothing. */
    method AddOtherInterest()
      requires Valid()
      modifies this`selectedInterests, this`otherInterest
      ensures Valid()
      ensures match AcceptedCustomInterest(old(selectedInterests), old(otherInterest))
        case Some(t) => selectedInterests == old(selectedInterests) + [t] && otherInterest == []
        case None => selectedInterests == old(selectedInterests) && otherInterest == old(otherInterest)
    {
      var t := Trim(otherInterest);
      if t != [] && t !in selectedInterests {
        AppendFreshNoDuplicates(selectedInterests, t);
        selectedInterests := selectedInterests + [t];
        otherInterest := "";
      }
    }

    /** The "x" on a selected-interest badge. */
    method RemoveInterest(interest: string)
      requires Valid()
      modifies this`selectedInterests
      ensures Valid()
      ensures selectedInterests == RemoveAll(old(selectedInterests), interest)
      ensures !Checked(interest) || (interest == OtherLabel && showOtherInterest)
    {
      RemoveAllNoDuplicates(selectedInterests, interest);
      selectedInterests := RemoveAll(selectedInterests, interest);
    }

    /** Typing into the admin-code field stores the text and clears the error. */
    method SetAdminCode(value: string)
      modifies this`adminCode, this`adminCodeError
      ensures adminCode == value && adminCodeError == []
    {
      adminCode := value;
      adminCodeError := "";
    }

    /** Submitting the form. A wrong admin code sets the error and goes
        nowhere; otherwise the page to navigate to is returned and no field
        changes. */
    method HandleRegister() returns (target: Option<string>)
      modifies this`adminCodeError
      ensures match RegisterOutcome(role, adminCode, AdminRegistrationCode)
        case Rejected(message) => target == None && adminCodeError == message
        case Redirect(path) => target == Some(path) && adminCodeError == old(adminCodeError)
    {
      if role == "admin" {
        if adminCode != AdminRegistrationCode {
          adminCodeError := InvalidAdminCodeMessage;
          return None;
        }
      }
      if role == "mentor" {
        target := Some("/pending-approval");
      } else {
        target := Some("/login");
      }
    }
  }
}
