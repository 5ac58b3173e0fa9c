/** The four-step intake page (NewApplication.tsx): pasted passport,
    flight, hotel and additional text, each sent for processing in turn.
    The page's state is a class; each handler that awaits the server is
    split at the await into `Begin` (up to the call) and a `Finish` (what
    runs after it), so the processing flags can be seen while a call is
    out. The server's answers are parameters. */
module IntakeWizard {
  import opened Wrappers
  import opened Text

  datatype Step = Passport | Flight | Hotel | Additional

  /** getStepNumber */
  function StepNumber(s: Step): (n: nat)
    ensures 1 <= n <= 4
    ensures s == Passport <==> n == 1
    ensures s == Additional <==> n == 4
  {
    match s
    case Passport => 1
    case Flight => 2
    case Hotel => 3
    case Additional => 4
  }

  lemma StepNumberInjective(s: Step, t: Step)
    requires StepNumber(s) == StepNumber(t)
    ensures s == t
  {
  }

  /** The progress bar: `(step / 4) * 100`, a whole number for every step. */
  function Progress(s: Step): (percent: nat)
    ensures percent * 4 == StepNumber(s) * 100
  {
    StepNumber(s) * 25
  }

  /** The step "Next" leads to. */
  function Following(s: Step): (t: Step)
    requires s != Additional
    ensures StepNumber(t) == StepNumber(s) + 1
  {
    match s
    case Passport => Flight
    case Flight => Hotel
    case Hotel => Additional
  }

  /** The step "Back" leads to. */
  function Preceding(s: Step): (t: Step)
    requires s != Passport
    ensures StepNumber(t) + 1 == StepNumber(s)
  {
    match s
    case Flight => Passport
    case Hotel => Flight
    case Additional => Hotel
  }

  lemma BackUndoesNext(s: Step)
    requires s != Additional
    ensures Preceding(Following(s)) == s
  {
    StepNumberInjective(Preceding(Following(s)), s);
  }

  class Wizard {
    var currentStep: Step
    /** `applicationId`, null until the passport step creates one */
    var applicationId: Option<int>
    /** the four text areas */
    var texts: map<Step, string>
    /** the steps whose isProcessing flag is set */
    var processing: set<Step>
    /** the steps whose completed flag is set */
    var completed: set<Step>

    /** `applicationId` is truthy: JavaScript treats 0 like null. */
    predicate HasId()
      reads this
    {
      applicationId.Some? && applicationId.value != 0
    }

    /** Only the shown step can be processing, and a step is never processing
        and completed at once; every step before the shown one is completed,
        completion only ever follows the step order, and nothing is completed
        without an application. */
    ghost predicate Valid()
      reads this
    {
      && texts.Keys == {Passport, Flight, Hotel, Additional}
      && processing <= {currentStep}
      && processing !! completed
      && (forall s :: StepNumber(s) < StepNumber(currentStep) ==> s in completed)
      && (forall s, t :: t in completed && StepNumber(s) <= StepNumber(t) ==> s in completed)
      && (completed != {} ==> HasId())
    }

    constructor ()
      ensures Valid()
      ensures currentStep == Passport && applicationId.None?
      ensures texts == map[Passport := "", Flight := "", Hotel := "", Additional := ""]
      ensures processing == {} && completed == {}
    {
      currentStep := Passport;
      applicationId := None;
      texts := map[Passport := "", Flight := "", Hotel := "", Additional := ""];
      processing := {};
      completed := {};
    }

    /** Whether a step's text area accepts input: not while it is
        processing, and not once completed except for the additional step. */
    predicate Editable(s: Step)
      reads this
    {
      s !in processing && (s == Additional || s !in completed)
    }

    /** The text area's onChange on the shown step. */
    method Type(value: string)
      requires Valid() && Editable(currentStep)
      modifies this
      ensures Valid()
      ensures texts == old(texts)[currentStep := value]
      ensures currentStep == old(currentStep) && applicationId == old(applicationId)
      ensures processing == old(processing) && completed == old(completed)
    {
      texts := texts[currentStep := value];
    }

    /** A handler up to its server call, on the shown step with its process
        button shown and enabled (the additional step is only shown with an
        application). Blank text, or no application for a later step, stops
        it with no change; otherwise it sets the processing flag. */
    method Begin() returns (started: bool)
      requires Valid()
      requires currentStep !in completed && currentStep !in processing
      requires currentStep == Additional ==> HasId()
      modifies this
      ensures Valid()
      ensures currentStep == old(currentStep) && applicationId == old(applicationId)
      ensures texts == old(texts) && completed == old(completed)
      ensures started <==> !IsBlank(texts[currentStep]) && (currentStep == Passport || HasId())
      ensures started ==> processing == {currentStep}
      ensures !started ==> processing == old(processing)
    {
      TrimEmptyIffBlank(texts[currentStep]);
      if Trim(texts[currentStep]) == "" {
        return false;
      }
      if currentStep != Passport && !HasId() {
        return false;
      }
      processing := processing + {currentStep};
      started := true;
    }

    /** handleProcessPassport after its awaits. Without an application,
        `created` is what visa.create answered (None when it failed, and
        then processing was never asked); `processed` says whether
        visa.processTextInput succeeded. A held application is reused. */
    method FinishPassport(created: Option<int>, processed: bool)
      requires Valid() && currentStep == Passport && Passport in processing
      requires created.Some? ==> created.value >= 1
      modifies this
      ensures Valid()
      ensures currentStep == old(currentStep) && texts == old(texts)
      ensures processing == {}
      ensures old(HasId()) ==> applicationId == old(applicationId)
      ensures !old(HasId()) && created.Some? ==> applicationId == created
      ensures !old(HasId()) && created.None? ==> applicationId == old(applicationId)
      ensures completed == if processed && (old(HasId()) || created.Some?) then {Passport} else {}
    {
      if !HasId() {
        match created {
          case None =>
            processing := processing - {Passport};
            return;
          case Some(id) =>
            applicationId := Some(id);
        }
      }
      if processed {
        completed := completed + {Passport};
      }
      processing := processing - {Passport};
    }

    /** handleProcessFlight, handleProcessHotel or handleProcessAdditional
        after the server answered. */
    method Finish(processed: bool)
      requires Valid() && currentStep != Passport && currentStep in processing
      modifies this
      ensures Valid()
      ensures currentStep == old(currentStep) && texts == old(texts) && applicationId == old(applicationId)
      ensures processing == {}
      ensures completed == if processed then old(completed) + {currentStep} else old(completed)
    {
      assert StepNumber(Passport) < StepNumber(currentStep);
      assert Passport in completed && HasId();
      if processed {
        completed := completed + {currentStep};
      }
      processing := processing - {currentStep};
    }

    /** "Next", shown once the current step is completed. */
    method Next()
      requires Valid() && currentStep != Additional && currentStep in completed
      modifies this
      ensures Valid()
      ensures currentStep == Following(old(currentStep))
      ensures applicationId == old(applicationId) && texts == old(texts)
      ensures processing == old(processing) && completed == old(completed)
    {
      currentStep := Following(currentStep);
    }

    /** "Back", disabled while the step is processing. */
    method Back()
      requires Valid() && currentStep != Passport && currentStep !in processing
      modifies this
      ensures Valid()
      ensures currentStep == Preceding(old(currentStep))
      ensures applicationId == old(applicationId) && texts == old(texts)
      ensures processing == old(processing) && completed == old(completed)
    {
      currentStep := Preceding(currentStep);
    }

    /** The final button of the additional step: the page of the
        application. */
    method Done() returns (route: string)
      requires Valid() && currentStep == Additional && Additional in completed
      ensures route == "/application/" + IntToString(applicationId.value)
      ensures Passport in completed && Flight in completed && Hotel in completed
    {
      route := "/application/" + IntToString(applicationId.value);
    }
  }
}
