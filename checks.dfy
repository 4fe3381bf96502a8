/**
 * validate_project: the ordered chain of argument checks run before a new
 * project is created.  Both copies of the code (pyxidust/projects.py and
 * projects.py) test the same seven conditions in the same order; they
 * differ in the set of template sizes they consult and in what they do with
 * the message.  The pyxidust/projects.py copy, which shows two dialogs and
 * exits, is modelled here; the projects.py copy, which returns the
 * message, is in the Projects module.
 */
module ProjectChecks {
  import opened Builtins
  import opened Strings

  /** SIZES of pyxidust/config.py */
  const SIZES: set<string> := {"P_08x11", "P_11x17", "P_18x24", "P_24x36", "P_36x48",
                               "L_08x11", "L_11x17", "L_18x24", "L_24x36", "L_36x48"}

  /** LAYOUTS of config.py: the same ten sizes */
  const LAYOUTS: set<string> := {"P_08x11", "P_11x17", "P_18x24", "P_24x36", "P_36x48",
                                 "L_08x11", "L_11x17", "L_18x24", "L_24x36", "L_36x48"}

  const DESCRIPTION_NUMBERS := "Description does not accept numbers."
  const DESCRIPTION_SPECIAL := "Description does not accept special characters."
  const DESCRIPTION_LENGTH := "Description must be 50 characters or less."
  const NAME_SPACES := "Name does not accept spaces."
  const NAME_SPECIAL := "Name does not accept special characters."
  const NAME_LENGTH := "Name must be 15 characters or less."

  function TemplateMessage(template: string): string {
    "Invalid template size for " + template
  }

  /** The if/elif chain: the message of the first check that fails, None when all pass */
  function FirstError(description: string, name: string, template: string, sizes: set<string>): Option<string> {
    if HasNumeric(description) then Some(DESCRIPTION_NUMBERS)
    else if HasPunct(description) then Some(DESCRIPTION_SPECIAL)
    else if |description| > 50 then Some(DESCRIPTION_LENGTH)
    else if HasSpace(name) then Some(NAME_SPACES)
    else if HasPunct(name) then Some(NAME_SPECIAL)
    else if |name| > 15 then Some(NAME_LENGTH)
    else if template !in sizes then Some(TemplateMessage(template))
    else None
  }

  // ---------------------------------------------------------------------
  // A reference reading: a list of checks, the first failing one reported
  // ---------------------------------------------------------------------

  datatype Check = Check(fails: bool, message: string)

  /** The seven checks in the order they are written */
  function Checks(description: string, name: string, template: string, sizes: set<string>): seq<Check> {
    [ Check(HasNumeric(description), DESCRIPTION_NUMBERS),
      Check(HasPunct(description), DESCRIPTION_SPECIAL),
      Check(|description| > 50, DESCRIPTION_LENGTH),
      Check(HasSpace(name), NAME_SPACES),
      Check(HasPunct(name), NAME_SPECIAL),
      Check(|name| > 15, NAME_LENGTH),
      Check(template !in sizes, TemplateMessage(template)) ]
  }

  /** The message of the first failing check of a list */
  function FirstFailing(checks: seq<Check>): (r: Option<string>)
    ensures r.None? <==> forall i :: 0 <= i < |checks| ==> !checks[i].fails
    ensures r.Some? ==> exists i :: 0 <= i < |checks| && checks[i].fails && checks[i].message == r.value &&
                                    forall j :: 0 <= j < i ==> !checks[j].fails
  {
    if |checks| == 0 then None
    else if checks[0].fails then Some(checks[0].message)
    else
      var r := FirstFailing(checks[1..]);
      if r.Some? then
        var i :| 0 <= i < |checks[1..]| && checks[1..][i].fails && checks[1..][i].message == r.value &&
                 forall j :: 0 <= j < i ==> !checks[1..][j].fails;
        assert checks[i + 1].fails && forall j :: 0 <= j < i + 1 ==> !checks[j].fails by {
          forall j | 0 <= j < i + 1 ensures !checks[j].fails {
            if j > 0 { assert checks[j] == checks[1..][j - 1]; }
          }
        }
        r
      else r
  }

  /** The chain reports exactly the first failing check of the list, first failure winning */
  lemma FirstErrorIsFirstFailing(description: string, name: string, template: string, sizes: set<string>)
    ensures FirstError(description, name, template, sizes) == FirstFailing(Checks(description, name, template, sizes))
  {
    var cs := Checks(description, name, template, sizes);
    FirstFailingFrom(cs, 6);
    FirstFailingFrom(cs, 5);
    FirstFailingFrom(cs, 4);
    FirstFailingFrom(cs, 3);
    FirstFailingFrom(cs, 2);
    FirstFailingFrom(cs, 1);
    FirstFailingFrom(cs, 0);
    assert cs[0..] == cs;
  }

  lemma FirstFailingFrom(checks: seq<Check>, k: nat)
    requires k < |checks|
    ensures FirstFailing(checks[k..]) ==
      if checks[k].fails then Some(checks[k].message) else FirstFailing(checks[k + 1..])
  {
    assert checks[k..][1..] == checks[k + 1..];
  }

  /** The arguments every check accepts */
  predicate Acceptable(description: string, name: string, template: string, sizes: set<string>) {
    !HasNumeric(description) && !HasPunct(description) && |description| <= 50 &&
    !HasSpace(name) && !HasPunct(name) && |name| <= 15 && template in sizes
  }

  lemma FirstErrorNone(description: string, name: string, template: string, sizes: set<string>)
    ensures FirstError(description, name, template, sizes).None? <==> Acceptable(description, name, template, sizes)
  {
  }

  /**
   * Spaces are a name error but not a description error: a description
   * with spaces passes while the same text as a name is refused.
   */
  lemma SpacesInDescriptionOnly(text: string, name: string, template: string, sizes: set<string>)
    requires HasSpace(text) && !HasNumeric(text) && !HasPunct(text) && |text| <= 15
    requires !HasSpace(name) && !HasPunct(name) && |name| <= 15 && template in sizes
    ensures FirstError(text, name, template, sizes) == None
    ensures FirstError("survey", text, template, sizes) == Some(NAME_SPACES)
  {
    SurveyIsPlain();
    assert FirstError(text, name, template, sizes) == None;
  }

  /** The description used above passes the three description checks */
  lemma SurveyIsPlain()
    ensures !HasNumeric("survey") && !HasPunct("survey") && |"survey"| <= 50
  {
    forall i | 0 <= i < 6 ensures !IsNumeric("survey"[i]) && !IsPunct("survey"[i]) {
      AlphanumericNotPunct("survey"[i]);
    }
  }

  // ---------------------------------------------------------------------
  // pyxidust/projects.py: dialogs and exit
  // ---------------------------------------------------------------------

  /** What a call of validate_project ends in */
  datatype Validation = Passed | Stopped(dialogs: seq<string>) | Raised(error: PyError)

  const RESTART := "'Check user input arguments and try again'"

  /**
   * As written: a failing check shows its message and the restart notice
   * and exits; when every check passes, `error` was never assigned and
   * reading it raises UnboundLocalError.
   */
  function ValidateProjectAsWritten(description: string, name: string, template: string): Validation {
    match FirstError(description, name, template, SIZES)
    case Some(message) => Stopped([message, RESTART])
    case None => Raised(UnboundLocalError("error"))
  }

  /** With `error` starting at None: valid arguments pass */
  function ValidateProject(description: string, name: string, template: string): Validation {
    match FirstError(description, name, template, SIZES)
    case Some(message) => Stopped([message, RESTART])
    case None => Passed
  }

  /** As written, every acceptable set of arguments raises, and only those */
  lemma ValidateProjectAsWrittenRaises(description: string, name: string, template: string)
    ensures ValidateProjectAsWritten(description, name, template).Raised? <==> Acceptable(description, name, template, SIZES)
    ensures ValidateProjectAsWritten(description, name, template).Raised? ==>
      ValidateProjectAsWritten(description, name, template).error == UnboundLocalError("error")
  {
    FirstErrorNone(description, name, template, SIZES);
  }

  /**
   * The corrected check passes exactly the acceptable arguments and
   * otherwise stops with the first failing check's message, then the
   * restart notice.
   */
  lemma ValidateProjectPasses(description: string, name: string, template: string)
    ensures ValidateProject(description, name, template) == Passed <==> Acceptable(description, name, template, SIZES)
    ensures !Acceptable(description, name, template, SIZES) ==>
      FirstFailing(Checks(description, name, template, SIZES)).Some? &&
      ValidateProject(description, name, template) ==
        Stopped([FirstFailing(Checks(description, name, template, SIZES)).value, RESTART])
  {
    FirstErrorNone(description, name, template, SIZES);
    FirstErrorIsFirstFailing(description, name, template, SIZES);
  }
}
