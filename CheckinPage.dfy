/** The check-in page's step machine (src/app/checkin/page.tsx): three steps,
    the reservation id and door PIN carried along, the three handlers, and the
    guards that decide which handler the rendered page can reach. */
module CheckinPage {
  import opened JsValues

  datatype Step = Biometric | SecretCode | Complete

  /** The `steps` array, in display order. */
  const Steps: seq<Step> := [Biometric, SecretCode, Complete]

  /** The three pieces of React state. */
  datatype PageState = PageState(currentStep: Step, reservationId: Option<string>, doorPin: Option<string>)

  /** The handlers the page hands to its children. The biometric component passes the
      `reservationId` of its verification reply, which may be missing. */
  datatype Event = BiometricSuccess(id: Option<string>) | CheckinSuccess(pin: Option<string>) | StartOver

  /** The state on first render. */
  function Initial(): PageState {
    PageState(Biometric, None, None)
  }

  /** The effect of one handler on the page state. */
  function Handle(s: PageState, e: Event): (r: PageState)
    ensures (r.currentStep == Complete) <==> e.CheckinSuccess?
    ensures e.BiometricSuccess? ==> r.currentStep == SecretCode && r.reservationId == e.id && r.doorPin == s.doorPin
    ensures e.CheckinSuccess? ==> r.doorPin == e.pin && r.reservationId == s.reservationId
    ensures e.StartOver? ==> r == Initial()
  {
    match e
    case BiometricSuccess(id) => s.(currentStep := SecretCode, reservationId := id)
    case CheckinSuccess(pin) => s.(currentStep := Complete, doorPin := pin)
    case StartOver => PageState(Biometric, None, None)
  }

  /** The PIN panel, and with it the start-over button, is rendered. */
  predicate PinPanelShown(s: PageState): (b: bool)
    ensures b ==> Truthy(s.doorPin) && CurrentIndex(s.currentStep) == |Steps| - 1
  {
    s.currentStep == Complete && Truthy(s.doorPin)
  }

  /** The help section is rendered. */
  predicate HelpShown(s: PageState): (b: bool)
    ensures b <==> CurrentIndex(s.currentStep) < |Steps| - 1
  {
    s.currentStep != Complete
  }

  /** Whether the rendered page wires the handler of `e` at all: the biometric
      component exists only in the first step, the secret-code component only in
      the second with a truthy reservation id, the start-over button only in the
      PIN panel. */
  predicate Wired(s: PageState, e: Event): (b: bool)
    ensures b ==> (e.BiometricSuccess? <==> s.currentStep == Biometric)
    ensures b ==> (e.CheckinSuccess? <==> s.currentStep == SecretCode)
    ensures b ==> (e.StartOver? <==> s.currentStep == Complete)
  {
    match e
    case BiometricSuccess(_) => s.currentStep == Biometric
    case CheckinSuccess(_) => s.currentStep == SecretCode && Truthy(s.reservationId)
    case StartOver => PinPanelShown(s)
  }

  /** `steps.findIndex((s) => s.key === currentStep)`. */
  function CurrentIndex(step: Step): (i: nat)
    ensures i < |Steps| && Steps[i] == step
    ensures forall j :: 0 <= j < i ==> Steps[j] != step
  {
    match step
    case Biometric => 0
    case SecretCode => 1
    case Complete => 2
  }

  /** Step `i` of the progress bar shows a check mark. */
  predicate CheckMark(s: PageState, i: nat): (b: bool)
    ensures b ==> i < CurrentIndex(s.currentStep) && i < |Steps| - 1 && Steps[i] != s.currentStep
  {
    i < CurrentIndex(s.currentStep)
  }

  /** Connector `i` (between step i and step i + 1) is filled. */
  predicate ConnectorFilled(s: PageState, i: nat): (b: bool)
    ensures b <==> CheckMark(s, i)
  {
    i < |Steps| - 1 && i < CurrentIndex(s.currentStep)
  }

  /** Which fields are set in which step, on every state the page can reach. */
  ghost predicate Consistent(s: PageState) {
    && (s.currentStep == Biometric ==> s.reservationId == None && s.doorPin == None)
    && (s.currentStep == SecretCode ==> s.doorPin == None)
    && (s.currentStep == Complete ==> Truthy(s.reservationId))
  }

  /** The states the page goes through under a sequence of handler calls, the first included. */
  function Trace(s: PageState, events: seq<Event>): (t: seq<PageState>)
    ensures |t| == |events| + 1 && t[0] == s
    decreases |events|
  {
    [s] + (if events == [] then [] else Trace(Handle(s, events[0]), events[1..]))
  }

  /** Every handler in the sequence is wired when it is called. */
  predicate WiredRun(s: PageState, events: seq<Event>)
    decreases |events|
  {
    events == [] || (Wired(s, events[0]) && WiredRun(Handle(s, events[0]), events[1..]))
  }

  /** Each state of a trace is the previous one after the handler called in between,
      and in a wired run that handler was wired. */
  lemma {:induction false} TraceSteps(s: PageState, events: seq<Event>)
    ensures forall k :: 0 <= k < |events| ==> Trace(s, events)[k + 1] == Handle(Trace(s, events)[k], events[k])
    ensures WiredRun(s, events) ==> forall k :: 0 <= k < |events| ==> Wired(Trace(s, events)[k], events[k])
    decreases |events|
  {
    if events != [] {
      var s' := Handle(s, events[0]);
      TraceSteps(s', events[1..]);
      var t, t' := Trace(s, events), Trace(s', events[1..]);
      assert t == [s] + t';
      forall k | 0 <= k < |events|
        ensures t[k + 1] == Handle(t[k], events[k])
        ensures WiredRun(s, events) ==> Wired(t[k], events[k])
      {
        if k > 0 {
          assert t[k + 1] == t'[k] && t[k] == t'[k - 1] && events[k] == events[1..][k - 1];
        }
      }
    }
  }

  lemma InitialConsistent()
    ensures Consistent(Initial())
    ensures CurrentIndex(Initial().currentStep) == 0
  {
  }

  /** The help section and the PIN panel never show together; help is shown on the
      first two steps of the progress bar only. */
  lemma HelpOnlyBeforeComplete(s: PageState)
    ensures !(HelpShown(s) && PinPanelShown(s))
    ensures HelpShown(s) <==> CurrentIndex(s.currentStep) < |Steps| - 1
  {
  }

  /** A wired handler keeps the fields consistent with the step. */
  lemma HandleKeepsConsistent(s: PageState, e: Event)
    requires Consistent(s) && Wired(s, e)
    ensures Consistent(Handle(s, e))
  {
  }

  /** Along any run of wired handlers, every state keeps the fields consistent with the step. */
  lemma {:induction false} RunKeepsConsistent(s: PageState, events: seq<Event>)
    requires Consistent(s) && WiredRun(s, events)
    ensures forall k :: 0 <= k <= |events| ==> Consistent(Trace(s, events)[k])
  {
    var t := Trace(s, events);
    TraceSteps(s, events);
    var k := 0;
    while k < |events|
      invariant 0 <= k <= |events|
      invariant forall j :: 0 <= j <= k ==> Consistent(t[j])
    {
      HandleKeepsConsistent(t[k], events[k]);
      k := k + 1;
    }
  }

  /** A wired handler other than start-over advances the progress index by exactly one,
      and keeps every check mark already shown. */
  lemma WiredHandlerAdvances(s: PageState, e: Event)
    requires Wired(s, e) && !e.StartOver?
    ensures CurrentIndex(Handle(s, e).currentStep) == CurrentIndex(s.currentStep) + 1
    ensures forall i: nat :: CheckMark(s, i) ==> CheckMark(Handle(s, e), i)
  {
  }

  /** Start-over returns to the biometric step with both fields cleared, whatever the state. */
  lemma StartOverResets(s: PageState)
    ensures Handle(s, StartOver) == Initial()
    ensures forall i: nat :: !CheckMark(Handle(s, StartOver), i)
  {
  }

  /** The complete step is entered only through the check-in handler, from the secret-code step. */
  lemma CompleteOnlyFromSecretCode(s: PageState, e: Event)
    requires Wired(s, e) && s.currentStep != Complete && Handle(s, e).currentStep == Complete
    ensures s.currentStep == SecretCode && e.CheckinSuccess?
  {
  }

  /** In any run of wired handlers, each entry into the complete step is a call of the
      check-in handler made from the secret-code step with a truthy reservation id. */
  lemma EntersCompleteFromSecretCode(s: PageState, events: seq<Event>)
    requires WiredRun(s, events)
    ensures forall k :: 0 <= k < |events| && Trace(s, events)[k].currentStep != Complete
                        && Trace(s, events)[k + 1].currentStep == Complete ==>
              && Trace(s, events)[k].currentStep == SecretCode
              && Truthy(Trace(s, events)[k].reservationId)
              && events[k].CheckinSuccess?
  {
    TraceSteps(s, events);
  }

  /** A sequence of states that starts outside the complete step and ends in it enters it somewhere. */
  lemma EntryIntoComplete(t: seq<PageState>) returns (k: nat)
    requires |t| > 0 && t[0].currentStep != Complete && t[|t| - 1].currentStep == Complete
    ensures k < |t| - 1 && t[k].currentStep != Complete && t[k + 1].currentStep == Complete
  {
    var i := |t| - 1;
    while t[i - 1].currentStep == Complete
      invariant 0 < i < |t| && t[i].currentStep == Complete
      decreases i
    {
      i := i - 1;
    }
    k := i - 1;
  }

  /** A run from the first render that ends in the complete step went through the
      secret-code step, and holds a truthy reservation id. */
  lemma InitialToCompleteVisitsSecretCode(events: seq<Event>)
    requires WiredRun(Initial(), events) && Trace(Initial(), events)[|events|].currentStep == Complete
    ensures exists k :: 0 <= k < |events| && Trace(Initial(), events)[k].currentStep == SecretCode
    ensures Truthy(Trace(Initial(), events)[|events|].reservationId)
  {
    var t := Trace(Initial(), events);
    RunKeepsConsistent(Initial(), events);
    EntersCompleteFromSecretCode(Initial(), events);
    var k := EntryIntoComplete(t);
    assert t[k].currentStep == SecretCode;
  }

  /** A complete step whose reply carried no PIN renders neither the panel nor the
      start-over button: no handler is wired any more. */
  lemma CompleteWithoutPinIsFinal(s: PageState, e: Event)
    requires s.currentStep == Complete && !Truthy(s.doorPin)
    ensures !Wired(s, e)
  {
  }

  /** The page component's state, updated in place by its handlers. */
  class Page {
    var currentStep: Step
    var reservationId: Option<string>
    var doorPin: Option<string>

    function State(): PageState
      reads this
    {
      PageState(currentStep, reservationId, doorPin)
    }

    constructor ()
      ensures currentStep == Biometric && reservationId == None && doorPin == None
      ensures State() == Initial()
    {
      currentStep, reservationId, doorPin := Biometric, None, None;
    }

    /** `handleBiometricSuccess`: keeps the id and moves to the secret-code step. */
    method HandleBiometricSuccess(id: Option<string>)
      modifies this
      ensures currentStep == SecretCode && reservationId == id && doorPin == old(doorPin)
      ensures State() == Handle(old(State()), BiometricSuccess(id))
    {
      reservationId := id;
      currentStep := SecretCode;
    }

    /** `handleCheckinSuccess`: keeps the PIN and moves to the complete step. */
    method HandleCheckinSuccess(pin: Option<string>)
      modifies this
      ensures currentStep == Complete && doorPin == pin && reservationId == old(reservationId)
      ensures State() == Handle(old(State()), CheckinSuccess(pin))
    {
      doorPin := pin;
      currentStep := Complete;
    }

    /** `handleStartOver`: back to the first step with both fields cleared. */
    method HandleStartOver()
      modifies this
      ensures currentStep == Biometric && reservationId == None && doorPin == None
      ensures State() == Handle(old(State()), StartOver)
    {
      currentStep := Biometric;
      reservationId := None;
      doorPin := None;
    }

    /** The progress index of the current step. */
    function Progress(): (i: nat)
      reads this
      ensures i < |Steps| && Steps[i] == currentStep
    {
      CurrentIndex(currentStep)
    }
  }
}
