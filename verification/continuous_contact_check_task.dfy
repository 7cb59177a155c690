/**
 * The task that checks a planned program for collisions along its continuous
 * motion.  The collision check itself (contact managers, state solver, profile
 * lookup) is a parameter; the task validates its configuration and its input and
 * turns the check's verdict into a node info.
 */
module ContinuousContactCheckTask {
  import opened Wrappers
  import opened Instructions
  import opened TaskComposerData

  const MISSING_INPUTS := "ContinuousContactCheckTask, config missing 'inputs' entry"
  const TOO_MANY_INPUTS := "ContinuousContactCheckTask, config 'inputs' entry currently only supports one input key"
  const NOT_COMPOSITE := "Input seed to ContinuousContactCheckTask must be a composite instruction"
  const SUCCEEDED := "Continuous contact check succeeded"

  function NotContactFree(description: string): string
  {
    "Results are not contact free for process input: " + description
  }

  datatype ContactTask = ContactTask(name: string, inputKey: string, conditional: bool)

  /**
   * The configuration constructor: the base constructor has read the `inputs` entry
   * into `inputKeys`; exactly one key is accepted.
   */
  function FromConfig(name: string, inputKeys: seq<string>, conditional: bool): (r: Result<ContactTask>)
    ensures r.Ok? <==> |inputKeys| == 1
    ensures r.Ok? ==> r.value == ContactTask(name, inputKeys[0], conditional)
    ensures |inputKeys| == 0 ==> r == Err(MISSING_INPUTS)
    ensures |inputKeys| > 1 ==> r == Err(TOO_MANY_INPUTS)
  {
    if |inputKeys| == 0 then Err(MISSING_INPUTS)
    else if |inputKeys| > 1 then Err(TOO_MANY_INPUTS)
    else Ok(ContactTask(name, inputKeys[0], conditional))
  }

  /** One contact found at a timestep: the two links and their distance. */
  datatype Contact = Contact(linkA: string, linkB: string, distance: real)

  /**
   * What the collision check is given: the program, its composite profile name
   * (before remapping) and profile overrides, and its manipulator info combined
   * with the problem's.
   */
  datatype CheckRequest = CheckRequest(program: Composite, profile: string, overrides: Overrides, manip: ManipInfo)

  /** `contactCheckProgram`: whether contacts were found, and the contacts of each timestep. */
  datatype CheckOutcome = CheckOutcome(found: bool, contacts: seq<seq<Contact>>)

  /**
   * The collision check of a request.  An `Err` stands for an exception thrown on
   * the way: an unknown manipulator in `getJointGroup`, or a failure inside the
   * contact manager, the state solver or `contactCheckProgram`.
   */
  type ContactChecker = CheckRequest -> Result<CheckOutcome>

  /** `ContinuousContactCheckTaskInfo`: outcome, message and the recorded contacts. */
  datatype ContactInfo = ContactInfo(returnValue: int, message: string, contactResults: seq<seq<Contact>>)

  function RequestFor(ci: Composite, problemManip: ManipInfo): CheckRequest
  {
    CheckRequest(ci, ci.profile, ci.profileOverrides, Combined(ci.manip, problemManip))
  }

  /** The storage holds a composite program under `key`. */
  predicate HoldsComposite(s: Storage, key: string)
  {
    GetData(s, Name(key)).Some? && GetData(s, Name(key)).value.CompositeData?
  }

  /**
   * `runImpl`: the info returned, or `Err` when the collision check throws, since
   * nothing in the task catches it.  The data storage is only read.
   */
  function Run(task: ContactTask, s: Storage, aborted: bool, problemManip: ManipInfo, check: ContactChecker)
    : (r: Result<ContactInfo>)
    ensures aborted ==> r == Ok(ContactInfo(0, ABORTED, []))
    ensures !aborted && !HoldsComposite(s, task.inputKey) ==> r == Ok(ContactInfo(0, NOT_COMPOSITE, []))
    ensures !aborted && HoldsComposite(s, task.inputKey) ==>
              var ci := GetData(s, Name(task.inputKey)).value.composite;
              var outcome := check(RequestFor(ci, problemManip));
              && (outcome.Err? ==> r == Err(outcome.message))
              && (outcome.Ok? && outcome.value.found
                  ==> r == Ok(ContactInfo(0, NotContactFree(ci.description), outcome.value.contacts)))
              && (outcome.Ok? && !outcome.value.found ==> r == Ok(ContactInfo(1, SUCCEEDED, [])))
    ensures r.Ok? && r.value.returnValue == 1 <==>
              && !aborted
              && HoldsComposite(s, task.inputKey)
              && check(RequestFor(GetData(s, Name(task.inputKey)).value.composite, problemManip)).Ok?
              && !check(RequestFor(GetData(s, Name(task.inputKey)).value.composite, problemManip)).value.found
    ensures r.Ok? ==> r.value.returnValue == 0 || r.value.returnValue == 1
  {
    if aborted then Ok(ContactInfo(0, ABORTED, []))
    else
      match GetData(s, Name(task.inputKey))
      case Some(CompositeData(ci)) =>
        (match check(RequestFor(ci, problemManip))
         case Err(m) => Err(m)
         case Ok(outcome) =>
           if outcome.found then Ok(ContactInfo(0, NotContactFree(ci.description), outcome.contacts))
           else Ok(ContactInfo(1, SUCCEEDED, [])))
      case _ => Ok(ContactInfo(0, NOT_COMPOSITE, []))
  }

  /** The messages of the task tell its outcomes apart: success is reported by the success message alone. */
  lemma MessageAgreesWithReturnValue(task: ContactTask, s: Storage, aborted: bool, problemManip: ManipInfo,
                                     check: ContactChecker)
    ensures var r := Run(task, s, aborted, problemManip, check);
            r.Ok? ==> (r.value.returnValue == 1 <==> r.value.message == SUCCEEDED)
  {
  }
}
