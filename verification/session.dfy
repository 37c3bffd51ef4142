/**
  Whole editing sessions: the popup is opened, receives any number of edits
  from its three faces, and is closed by OK or Cancel. Once closed, its
  faces are off screen and deliver nothing further.
 */
module EditSession {
  import opened Wrappers
  import opened Gregorian
  import opened DefaultFormat
  import opened Editor

  /** What the user can do while the popup is open. */
  datatype Edit =
    | PickDate(date: seq<int>)  // the calendar's `active_date` becomes `date`
    | PickTime(time: Time)      // the clock's `time` becomes `time`
    | Type(text: string)        // the text input's content becomes `text`
    | Submit                    // the text input's validate action

  /** How the popup is closed. */
  datatype Close = Ok | Cancel

  /** The calendar only reports real dates and the clock only real times. */
  predicate Deliverable(e: Edit) {
    match e
    case PickDate(date) => IsDateList(date)
    case PickTime(time) => ValidTime(time)
    case _ => true
  }

  predicate AllDeliverable(es: seq<Edit>) {
    forall i | 0 <= i < |es| :: Deliverable(es[i])
  }

  /** One edit. No edit touches the value kept for Cancel or closes the popup. */
  function Step(s: Session, e: Edit): (r: Session)
    requires Live(s) && Deliverable(e)
    ensures Live(r)
    ensures r.oldDt == s.oldDt && r.dismissed == s.dismissed
    ensures FacesAgree(s) ==> FacesAgree(r)
    ensures e.Type? ==> r.dt == s.dt
  {
    match e
    case PickDate(date) => SetActiveDate(s, date)
    case PickTime(time) => SetTime(s, time)
    case Type(text) => s.(text := text)
    case Submit => OnTextValidate(s)
  }

  /** A sequence of edits, in order. */
  function Apply(s: Session, es: seq<Edit>): (r: Session)
    requires Live(s) && AllDeliverable(es)
    ensures Live(r)
    ensures r.oldDt == s.oldDt && r.dismissed == s.dismissed
    ensures FacesAgree(s) ==> FacesAgree(r)
    decreases |es|
  {
    if es == [] then s else Step(Apply(s, es[..|es| - 1]), es[|es| - 1])
  }

  function Finish(s: Session, c: Close): (r: Session)
    requires Live(s)
    ensures r.dismissed
    ensures c == Cancel ==> r.dt == s.oldDt
    ensures c == Ok ==> r.dt == OnTextValidate(s).dt && Live(r)
  {
    match c
    case Ok => OnOk(s)
    case Cancel => OnCancel(s)
  }

  /**
    The value a session hands back when it is opened with `dt` at time `now`,
    edited by `es` and closed by `c`. Cancel returns the opening value,
    whatever the edits, even when it was absent; OK always returns a value.
   */
  function Outcome(dt: Option<DateTime>, now: DateTime, es: seq<Edit>, c: Close): (r: Option<DateTime>)
    requires dt.Some? ==> Valid(dt.value)
    requires Valid(now)
    requires AllDeliverable(es)
    ensures c == Cancel ==> r == dt
    ensures c == Ok ==> r.Some? && Valid(r.value)
  {
    Finish(Apply(Open(dt, now), es), c).dt
  }

  // ---------- lemmas ----------

  /** Throughout a session the calendar and clock show `dt`. */
  lemma FacesAgreeThroughout(s: Session, es: seq<Edit>)
    requires Live(s) && FacesAgree(s) && AllDeliverable(es)
    ensures FacesAgree(Apply(s, es))
    ensures forall k | 0 <= k <= |es| :: FacesAgree(Apply(s, es[..k]))
  {
  }

  /** One more edit at the end is one more step. */
  lemma ApplyOneMore(s: Session, es: seq<Edit>, e: Edit)
    requires Live(s) && AllDeliverable(es) && Deliverable(e)
    ensures AllDeliverable(es + [e])
    ensures Apply(s, es + [e]) == Step(Apply(s, es), e)
  {
    assert (es + [e])[..|es|] == es;
  }

  /** OK hands back the text's value when the final text parses, and `dt` otherwise. */
  lemma OkCapturesPendingText(dt: Option<DateTime>, now: DateTime, es: seq<Edit>)
    requires dt.Some? ==> Valid(dt.value)
    requires Valid(now)
    requires AllDeliverable(es)
    ensures var last := Apply(Open(dt, now), es);
      && (Parse(last.text).Some? ==> Outcome(dt, now, es, Ok) == Parse(last.text))
      && (Parse(last.text).None? ==> Outcome(dt, now, es, Ok) == last.dt)
  {
  }

  /** Typing without submitting and then pressing OK commits what was typed, if it parses. */
  lemma {:induction false} OkCommitsTypedText(dt: Option<DateTime>, now: DateTime, es: seq<Edit>, text: string)
    requires dt.Some? ==> Valid(dt.value)
    requires Valid(now)
    requires AllDeliverable(es)
    requires Parse(text).Some?
    ensures AllDeliverable(es + [Type(text)])
    ensures Outcome(dt, now, es + [Type(text)], Ok) == Parse(text)
  {
    ApplyOneMore(Open(dt, now), es, Type(text));
  }

  /** Submitting parseable text leaves every face showing `dt`. */
  lemma {:induction false} SubmitSyncs(dt: Option<DateTime>, now: DateTime, es: seq<Edit>)
    requires dt.Some? ==> Valid(dt.value)
    requires Valid(now)
    requires AllDeliverable(es)
    requires Parse(Apply(Open(dt, now), es).text).Some?
    ensures AllDeliverable(es + [Submit])
    ensures Synced(Apply(Open(dt, now), es + [Submit]))
  {
    var s := Open(dt, now);
    FacesAgreeThroughout(s, es);
    ApplyOneMore(s, es, Submit);
    ValidateFromAgreement(Apply(s, es));
  }

  /** Setting the clock to 15:30:00 in a session opened on 2023-01-01 00:00:00. */
  lemma ClockEditOnNewYear(now: DateTime)
    requires Valid(now)
    ensures var s1 := Step(Open(Some(DateTime(2023, 1, 1, 0, 0, 0)), now), PickTime(Time(15, 30, 0)));
      && s1.dt == Some(DateTime(2023, 1, 1, 15, 30, 0))
      && s1.text == "2023-01-01 15:30:00"
  {
    var s0 := Open(Some(DateTime(2023, 1, 1, 0, 0, 0)), now);
    var s1 := Step(s0, PickTime(Time(15, 30, 0)));
    assert s1.dt == Some(DateTime(2023, 1, 1, 15, 30, 0));
    assert s1.text == Format(s1.dt.value) == Padded(s1.dt.value);
    PaddedAfternoon(s1.dt.value);
  }

  lemma PaddedAfternoon(dt: DateTime)
    requires dt == DateTime(2023, 1, 1, 15, 30, 0)
    ensures Padded(dt) == "2023-01-01 15:30:00"
  {
  }

  /** Typing "2024-06-01 08:00:00" and submitting it moves every face there. */
  lemma TypedJuneMorning(s: Session)
    requires Live(s) && FacesAgree(s)
    ensures var r := Step(Step(s, Type("2024-06-01 08:00:00")), Submit);
      && r.dt == Some(DateTime(2024, 6, 1, 8, 0, 0))
      && r.activeDate == [1, 6, 2024]
      && r.time == Time(8, 0, 0)
      && r.oldDt == s.oldDt
  {
    var typed := DateTime(2024, 6, 1, 8, 0, 0);
    assert Padded(typed) == "2024-06-01 08:00:00";
    ParsePadded(typed);
  }

  /**
    A session opened on 2023-01-01 00:00:00: the clock is set to 15:30:00,
    then "2024-06-01 08:00:00" is typed and submitted, then Cancel is pressed.
   */
  lemma EditTypeSubmitCancel(now: DateTime)
    requires Valid(now)
    ensures var s1 := Step(Open(Some(DateTime(2023, 1, 1, 0, 0, 0)), now), PickTime(Time(15, 30, 0)));
      var s2 := Step(Step(s1, Type("2024-06-01 08:00:00")), Submit);
      && s1.dt == Some(DateTime(2023, 1, 1, 15, 30, 0))
      && s1.text == "2023-01-01 15:30:00"
      && s2.activeDate == [1, 6, 2024]
      && s2.time == Time(8, 0, 0)
      && s2.dt == Some(DateTime(2024, 6, 1, 8, 0, 0))
      && OnCancel(s2).dt == Some(DateTime(2023, 1, 1, 0, 0, 0))
  {
    var s0 := Open(Some(DateTime(2023, 1, 1, 0, 0, 0)), now);
    var s1 := Step(s0, PickTime(Time(15, 30, 0)));
    ClockEditOnNewYear(now);
    TypedJuneMorning(s1);
  }

  /** Submitting text that does not parse leaves the session as it was, text included. */
  lemma GarbageSubmitChangesNothing(s: Session)
    requires Live(s)
    ensures Step(Step(s, Type("not a date")), Submit) == s.(text := "not a date")
  {
  }
}
