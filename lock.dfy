/** The lock and PIN navigation state machine: which section is shown, and
    the PIN prompt that guards the point-of-sale, sales history and settings
    sections while the application is locked. */
module Lock {
  import opened Wrappers
  import opened Domain

  /** The session fields the lock handlers read and write. */
  datatype LockState = LockState(
    isLocked: bool,
    activeTab: Tab,
    targetTab: Option<Tab>,
    showPinModal: bool,
    pinInput: string,
    securityPin: string)

  const DefaultPin: string := "1234"

  /** The PIN prompt's field holds at most four characters. */
  const PinMaxLength: nat := 4

  /** What a text field with that limit holds after the user enters `text`:
      the text itself when it fits, otherwise its first four characters. */
  function PinField(text: string): (r: string)
    ensures |r| <= PinMaxLength
    ensures |text| <= PinMaxLength ==> r == text
    ensures |text| > PinMaxLength ==> r == text[..PinMaxLength]
  {
    if |text| <= PinMaxLength then text else text[..PinMaxLength]
  }

  /** A PIN the prompt can hold. */
  predicate PinFits(s: LockState) {
    |s.securityPin| <= PinMaxLength
  }

  /** The state a session starts in: unlocked, on the inventory section. */
  function Initial(): LockState {
    LockState(false, Inventory, None, false, "", DefaultPin)
  }

  /** The sections that need the PIN while locked. */
  predicate Protected(t: Tab) {
    t == Sales || t == Pos || t == Settings
  }

  /** What the user can do to the lock state: pick a section, enter text in
      the prompt's PIN field, press the prompt's button, press the lock
      button, close the prompt, or enter a new PIN in the settings section. */
  datatype Event =
    | RequestTab(tab: Tab)
    | TypePin(text: string)
    | SubmitPin
    | PressLock
    | DismissPrompt
    | EditPin(text: string)

  function Step(s: LockState, e: Event): LockState {
    match e
    case RequestTab(t) =>
      if s.isLocked && Protected(t) then s.(targetTab := Some(t), showPinModal := true)
      else s.(activeTab := t)
    case TypePin(text) =>
      s.(pinInput := PinField(text))
    case SubmitPin =>
      if s.pinInput == s.securityPin then
        if s.targetTab.Some? then
          s.(showPinModal := false, pinInput := "", activeTab := s.targetTab.value, targetTab := None)
        else
          s.(showPinModal := false, pinInput := "", isLocked := false)
      else
        s.(pinInput := "")
    case PressLock =>
      if s.isLocked then s.(targetTab := None, showPinModal := true)
      else s.(isLocked := true, activeTab := Inventory)
    case DismissPrompt =>
      s.(showPinModal := false)
    case EditPin(text) =>
      // the field is only on screen in the settings section, and is held to
      // the prompt's length so that the PIN stays enterable
      if s.activeTab == Settings then s.(securityPin := PinField(text)) else s
  }

  function Run(s: LockState, events: seq<Event>): LockState
    decreases |events|
  {
    if events == [] then s else Run(Step(s, events[0]), events[1..])
  }

  /** The step as written: the settings field has no length limit, so the
      PIN takes the entered text whole. */
  function StepAsWritten(s: LockState, e: Event): LockState {
    match e
    case EditPin(text) => if s.activeTab == Settings then s.(securityPin := text) else s
    case _ => Step(s, e)
  }

  function RunAsWritten(s: LockState, events: seq<Event>): LockState
    decreases |events|
  {
    if events == [] then s else RunAsWritten(StepAsWritten(s, events[0]), events[1..])
  }

  /** While locked, asking for a protected section leaves the shown section
      as it is and opens the prompt, remembering the request. */
  lemma LockedRequest(s: LockState, t: Tab)
    requires s.isLocked && Protected(t)
    ensures Step(s, RequestTab(t)) == s.(targetTab := Some(t), showPinModal := true)
    ensures Step(s, RequestTab(t)).activeTab == s.activeTab
  {
  }

  /** A correct PIN closes the prompt and clears the field; with a pending
      section it shows that section and stays locked, without one it
      unlocks. A wrong PIN only clears the field. */
  lemma SubmitPinOutcome(s: LockState)
    ensures var r := Step(s, SubmitPin);
      && (s.pinInput == s.securityPin && s.targetTab.Some? ==>
            r.activeTab == s.targetTab.value && r.isLocked == s.isLocked
            && r.targetTab == None && !r.showPinModal && r.pinInput == "")
      && (s.pinInput == s.securityPin && s.targetTab.None? ==>
            !r.isLocked && r.activeTab == s.activeTab && !r.showPinModal && r.pinInput == "")
      && (s.pinInput != s.securityPin ==> r == s.(pinInput := ""))
  {
  }

  /** Locking always lands on the inventory section. */
  lemma LockingShowsInventory(s: LockState)
    requires !s.isLocked
    ensures Step(s, PressLock).isLocked && Step(s, PressLock).activeTab == Inventory
  {
  }

  /** A locked session becomes unlocked in one step only through a correct
      PIN submitted with no pending section. */
  lemma OnlyPinUnlocks(s: LockState, e: Event)
    requires s.isLocked
    ensures !Step(s, e).isLocked <==> e == SubmitPin && s.pinInput == s.securityPin && s.targetTab.None?
  {
  }

  /** The lock button followed by the PIN unlocks without changing the shown
      section, for every PIN the prompt can hold. */
  lemma UnlockWithPin(s: LockState)
    requires s.isLocked && PinFits(s)
    ensures var r := Run(s, [PressLock, TypePin(s.securityPin), SubmitPin]);
      !r.isLocked && r.activeTab == s.activeTab && !r.showPinModal && r.pinInput == ""
  {
    var s1 := Step(s, PressLock);
    var s2 := Step(s1, TypePin(s.securityPin));
    assert [PressLock, TypePin(s.securityPin), SubmitPin][1..] == [TypePin(s.securityPin), SubmitPin];
    assert [TypePin(s.securityPin), SubmitPin][1..] == [SubmitPin];
    assert Run(s2, [SubmitPin]) == Step(s2, SubmitPin);
  }

  /** Every PIN stays enterable: no sequence of events makes it longer than
      the prompt's field (and the default PIN fits). */
  lemma {:induction false} PinAlwaysFits(s: LockState, events: seq<Event>)
    requires PinFits(s)
    ensures PinFits(Run(s, events))
    decreases |events|
  {
    if events != [] {
      PinAlwaysFits(Step(s, events[0]), events[1..]);
    }
  }

  /** The PIN can only be changed from the settings section. */
  lemma PinChangesOnlyInSettings(s: LockState, e: Event)
    ensures Step(s, e).securityPin != s.securityPin ==> s.activeTab == Settings && e.EditPin?
  {
  }

  /** An empty PIN is matched by the empty PIN field: pressing the lock
      button and then the prompt's button unlocks without typing anything. */
  lemma EmptyPinOpens(s: LockState)
    requires s.isLocked && s.securityPin == "" && s.pinInput == ""
    ensures !Run(s, [PressLock, SubmitPin]).isLocked
  {
    assert [PressLock, SubmitPin][1..] == [SubmitPin];
    assert Run(Step(s, PressLock), [SubmitPin]) == Step(Step(s, PressLock), SubmitPin);
  }

  /** The lock's safety property: from a locked session on an unprotected
      section whose PIN field does not hold the (non-empty) PIN, no sequence
      of events that never enters the PIN unlocks the session or shows a
      protected section. */
  lemma {:induction false} LockedWithoutPin(s: LockState, events: seq<Event>)
    requires s.isLocked && !Protected(s.activeTab)
    requires s.securityPin != "" && s.pinInput != s.securityPin
    requires forall i :: 0 <= i < |events| && events[i].TypePin? ==> PinField(events[i].text) != s.securityPin
    ensures var r := Run(s, events);
      r.isLocked && !Protected(r.activeTab) && r.securityPin == s.securityPin
    decreases |events|
  {
    if events != [] {
      var s1 := Step(s, events[0]);
      assert s1.isLocked && !Protected(s1.activeTab);
      assert s1.securityPin == s.securityPin && s1.pinInput != s.securityPin;
      LockedWithoutPin(s1, events[1..]);
    }
  }

  /** As written, a PIN longer than the prompt's field locks the session for
      good: from a locked session on an unprotected section, no sequence of
      events unlocks it or shows a protected section. */
  lemma {:induction false} LongPinLocksOut(s: LockState, events: seq<Event>)
    requires s.isLocked && !Protected(s.activeTab)
    requires |s.pinInput| <= PinMaxLength < |s.securityPin|
    ensures var r := RunAsWritten(s, events);
      r.isLocked && !Protected(r.activeTab)
    decreases |events|
  {
    if events != [] {
      var s1 := StepAsWritten(s, events[0]);
      assert s1.isLocked && !Protected(s1.activeTab);
      assert s1.securityPin == s.securityPin && |s1.pinInput| <= PinMaxLength;
      LongPinLocksOut(s1, events[1..]);
    }
  }

  /** The sequence that shows it: open the settings, enter "12345" as the
      new PIN, lock. As written nothing unlocks the session afterwards; with
      the settings field held to four characters the PIN is "1234", and
      entering "12345" at the prompt (which keeps "1234") unlocks. */
  lemma LongPinExample(events: seq<Event>)
    ensures var setup := [RequestTab(Settings), EditPin("12345"), PressLock];
      && RunAsWritten(RunAsWritten(Initial(), setup), events).isLocked
      && Run(Initial(), setup).securityPin == "1234"
      && !Run(Run(Initial(), setup), [PressLock, TypePin("12345"), SubmitPin]).isLocked
  {
    var setup := [RequestTab(Settings), EditPin("12345"), PressLock];
    var w0 := StepAsWritten(Initial(), RequestTab(Settings));
    var w1 := StepAsWritten(w0, EditPin("12345"));
    var w2 := StepAsWritten(w1, PressLock);
    assert setup[1..] == [EditPin("12345"), PressLock];
    assert setup[1..][1..] == [PressLock];
    assert RunAsWritten(w2, []) == w2;
    assert RunAsWritten(Initial(), setup) == w2;
    LongPinLocksOut(w2, events);
    var c0 := Step(Initial(), RequestTab(Settings));
    var c1 := Step(c0, EditPin("12345"));
    var c2 := Step(c1, PressLock);
    assert Run(c2, []) == c2;
    assert Run(Initial(), setup) == c2;
    assert PinField("12345") == "1234";
    var u0 := Step(c2, PressLock);
    var u1 := Step(u0, TypePin("12345"));
    var unlock := [PressLock, TypePin("12345"), SubmitPin];
    assert unlock[1..] == [TypePin("12345"), SubmitPin];
    assert unlock[1..][1..] == [SubmitPin];
    assert Run(u1, [SubmitPin]) == Step(u1, SubmitPin);
  }
}
