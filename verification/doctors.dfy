/** The doctor-consultation page: a list of doctors, a doctor's profile,
    the booking form and the confirmation. Three state flags decide the
    screen; a button's handler can only run while its screen is shown,
    and the confirmation's three-second timer is an explicit event. The
    doctor catalog is an input. */
module Booking {
  import opened Common

  /** A doctor, reduced to what the screens' logic uses. */
  datatype Doctor = Doctor(id: int, name: string, consultationTypes: seq<string>, slots: seq<string>)

  /** `selectedDoctor`, `showBooking` and `bookingSuccess`. */
  datatype Clinic = Clinic(selected: Option<Doctor>, showBooking: bool, success: bool)

  const Start := Clinic(None, false, false)

  datatype Screen = List | Profile(doctor: Doctor) | Form(doctor: Doctor) | Confirmation(booked: Option<Doctor>)

  /** Which screen renders: the confirmation first, then the form when a
      doctor is chosen and booking is shown, then the profile, else the
      list. */
  function Render(c: Clinic): (s: Screen)
    ensures s.Confirmation? <==> c.success
    ensures s.Form? <==> !c.success && c.selected.Some? && c.showBooking
    ensures s.Profile? <==> !c.success && c.selected.Some? && !c.showBooking
    ensures s.List? <==> !c.success && c.selected.None?
    ensures (s.Form? || s.Profile?) ==> c.selected == Some(s.doctor)
    ensures s.Confirmation? ==> s.booked == c.selected
  {
    if c.success then Confirmation(c.selected)
    else if c.selected.Some? && c.showBooking then Form(c.selected.value)
    else if c.selected.Some? then Profile(c.selected.value)
    else List
  }

  /** The user's and the timer's actions. */
  datatype Event =
    | Pick(doctor: Doctor)    // a card in the list
    | OpenBooking             // "Book Consultation" on the profile
    | CancelBooking           // "Back" or "Cancel" on the form
    | BackToList              // "Back" on the profile
    | Book                    // "Confirm Booking" on the form
    | SuccessTimeout          // the confirmation's timer firing

  /** One event. A button's handler runs only while its screen is shown;
      the timer exists only while the confirmation is up, because only
      `handleBooking` starts it and only it ends the confirmation. */
  function Step(c: Clinic, e: Event): (r: Clinic)
    ensures e.Pick? && Render(c).List? ==> r == c.(selected := Some(e.doctor))
    ensures e.OpenBooking? && Render(c).Profile? ==> r == c.(showBooking := true)
    ensures e.CancelBooking? && Render(c).Form? ==> r == c.(showBooking := false)
    ensures e.BackToList? && Render(c).Profile? ==> r == c.(selected := None)
    ensures e.Book? && Render(c).Form? ==> r == c.(showBooking := false, success := true)
    ensures e.SuccessTimeout? && c.success ==> r == c.(success := false, selected := None)
    ensures r != c ==> (e.Pick? && Render(c).List?) || (e.OpenBooking? && Render(c).Profile?)
                       || ((e.CancelBooking? || e.Book?) && Render(c).Form?)
                       || (e.BackToList? && Render(c).Profile?) || (e.SuccessTimeout? && c.success)
  {
    var s := Render(c);
    match e
    case Pick(d) => if s.List? then c.(selected := Some(d)) else c
    case OpenBooking => if s.Profile? then c.(showBooking := true) else c
    case CancelBooking => if s.Form? then c.(showBooking := false) else c
    case BackToList => if s.Profile? then c.(selected := None) else c
    case Book => if s.Form? then c.(showBooking := false, success := true) else c
    case SuccessTimeout => if c.success then c.(success := false, selected := None) else c
  }

  function Run(c: Clinic, events: seq<Event>): Clinic
    decreases |events|
  {
    if events == [] then c else Run(Step(c, events[0]), events[1..])
  }

  /** The screens as an abstract machine: the transitions the page's
      buttons and timer allow. */
  function Next(s: Screen, e: Event): Screen {
    match (s, e)
    case (List, Pick(d)) => Profile(d)
    case (Profile(d), OpenBooking) => Form(d)
    case (Profile(_), BackToList) => List
    case (Form(d), CancelBooking) => Profile(d)
    case (Form(d), Book) => Confirmation(Some(d))
    case (Confirmation(_), SuccessTimeout) => List
    case _ => s
  }

  /** The states the page can be in: booking is shown only with a doctor
      chosen, and the confirmation names the booked doctor and hides the
      form. */
  predicate Valid(c: Clinic) {
    && (c.showBooking ==> c.selected.Some?)
    && (c.success ==> c.selected.Some? && !c.showBooking)
  }

  function RunScreens(s: Screen, events: seq<Event>): Screen
    decreases |events|
  {
    if events == [] then s else RunScreens(Next(s, events[0]), events[1..])
  }

  /** Every event keeps the state valid and moves the rendered screen
      exactly as the abstract machine says. */
  lemma StepFollowsScreens(c: Clinic, e: Event)
    requires Valid(c)
    ensures Valid(Step(c, e))
    ensures Render(Step(c, e)) == Next(Render(c), e)
  {
  }

  /** Any sequence of events from the start stays valid, and the screen
      follows the abstract machine. */
  lemma {:induction false} RunFollowsScreens(c: Clinic, events: seq<Event>)
    requires Valid(c)
    ensures Valid(Run(c, events))
    ensures Render(Run(c, events)) == RunScreens(Render(c), events)
    decreases |events|
  {
    if events != [] {
      StepFollowsScreens(c, events[0]);
      RunFollowsScreens(Step(c, events[0]), events[1..]);
    }
  }

  /** Booking from a profile: the form, then the confirmation naming the
      doctor, then, when the timer fires, the list with no doctor chosen. */
  lemma BookingRoundTrip(d: Doctor)
    ensures var c := Step(Start, Pick(d));
            && Render(c) == Profile(d)
            && Render(Step(c, OpenBooking)) == Form(d)
            && Render(Step(Step(c, OpenBooking), Book)) == Confirmation(Some(d))
            && Step(Step(Step(c, OpenBooking), Book), SuccessTimeout) == Start
  {
  }

  /** Leaving the form keeps the chosen doctor; leaving the profile
      forgets it. */
  lemma BackButtons(c: Clinic)
    requires Valid(c)
    ensures Render(c).Form? ==> Render(Step(c, CancelBooking)) == Profile(Render(c).doctor)
    ensures Render(c).Profile? ==> Render(Step(c, BackToList)) == List && Step(c, BackToList).selected.None?
  {
  }

  /** The form's radio buttons start on the first consultation type and
      the first time slot, when the doctor has any. */
  function Defaults(d: Doctor): (r: (Option<string>, Option<string>))
    ensures r.0.Some? <==> |d.consultationTypes| > 0
    ensures r.0.Some? ==> r.0.value == d.consultationTypes[0]
    ensures r.1.Some? <==> |d.slots| > 0
    ensures r.1.Some? ==> r.1.value == d.slots[0]
  {
    ( if |d.consultationTypes| > 0 then Some(d.consultationTypes[0]) else None,
      if |d.slots| > 0 then Some(d.slots[0]) else None )
  }
}
