/**
  The editing session of `DatetimeEditorPopup`: one date-time `dt` kept in
  step with three faces of it (the calendar's `active_date` list, the
  clock's `time`, the text input's `text`), finished by OK or Cancel.

  Every event handler is a pure function from session to session. Writing a
  face property runs the handler bound to it, as the toolkit does, but only
  when the written value differs from the face's current one; the bindings
  are made after the faces are first set, so opening the popup runs none.
 */
module Editor {
  import opened Wrappers
  import opened Gregorian
  import opened DefaultFormat

  datatype Session = Session(
    oldDt: Option<DateTime>,  // the value the popup was opened with
    dt: Option<DateTime>,     // the popup's `dt` property
    activeDate: seq<int>,     // calendar face, `[day, month, year]`
    time: Time,               // clock face
    text: string,             // text face
    dismissed: bool)          // OK or Cancel has closed the popup

  /** `dt` holds a date-time, as the handlers that read it need. */
  predicate Live(s: Session) {
    s.dt.Some? && Valid(s.dt.value)
  }

  /** The calendar and clock faces show `dt`'s date and time. */
  predicate FacesAgree(s: Session)
    requires s.dt.Some?
  {
    s.activeDate == DateList(s.dt.value) && s.time == TimeOf(s.dt.value)
  }

  /** All three faces show `dt`: the text reads back as `dt`. */
  predicate Synced(s: Session) {
    Live(s) && FacesAgree(s) && Parse(s.text) == s.dt
  }

  /**
    Opening the popup with `dt` (possibly absent) when the clock reads `now`:
    the value is kept for Cancel, absence is replaced by `now`, and the three
    faces are set from the result.
   */
  function Open(dt: Option<DateTime>, now: DateTime): (s: Session)
    requires dt.Some? ==> Valid(dt.value)
    requires Valid(now)
    ensures s.oldDt == dt
    ensures dt.Some? ==> s.dt == dt
    ensures dt.None? ==> s.dt == Some(now)
    ensures Synced(s)
    ensures s.text == Format(s.dt.value)
    ensures !s.dismissed
  {
    var cur := if dt.Some? then dt.value else now;
    RoundTrip(cur);
    Session(dt, Some(cur), DateList(cur), TimeOf(cur), Format(cur), false)
  }

  /** Handler bound to the calendar: a new `[day, month, year]` replaces `dt`'s date. */
  function OnUpdateTextDate(s: Session, value: seq<int>): (r: Session)
    requires Live(s) && IsDateList(value)
    ensures Live(r)
    ensures DateList(r.dt.value) == value
    ensures TimeOf(r.dt.value) == TimeOf(s.dt.value)
    ensures r.text == Format(r.dt.value) && Parse(r.text) == r.dt
    ensures r.activeDate == s.activeDate && r.time == s.time
    ensures r.oldDt == s.oldDt && r.dismissed == s.dismissed
  {
    var dt := WithDate(s.dt.value, value);
    RoundTrip(dt);
    s.(dt := Some(dt), text := Format(dt))
  }

  /** Handler bound to the clock: a new time of day replaces `dt`'s time. */
  function OnUpdateTextTime(s: Session, value: Time): (r: Session)
    requires Live(s) && ValidTime(value)
    ensures Live(r)
    ensures TimeOf(r.dt.value) == value
    ensures DateList(r.dt.value) == DateList(s.dt.value)
    ensures r.text == Format(r.dt.value) && Parse(r.text) == r.dt
    ensures r.activeDate == s.activeDate && r.time == s.time
    ensures r.oldDt == s.oldDt && r.dismissed == s.dismissed
  {
    var dt := WithTime(s.dt.value, value);
    RoundTrip(dt);
    s.(dt := Some(dt), text := Format(dt))
  }

  /** Setting the calendar's `active_date`; the bound handler runs only on a change. */
  function SetActiveDate(s: Session, value: seq<int>): (r: Session)
    requires Live(s) && IsDateList(value)
    ensures Live(r)
    ensures r.activeDate == value && r.time == s.time
    ensures value == s.activeDate ==> r == s
    ensures value != s.activeDate ==>
      && DateList(r.dt.value) == value
      && TimeOf(r.dt.value) == TimeOf(s.dt.value)
      && r.text == Format(r.dt.value)
    ensures r.oldDt == s.oldDt && r.dismissed == s.dismissed
  {
    if value == s.activeDate then s
    else OnUpdateTextDate(s.(activeDate := value), value)
  }

  /** Setting the clock's `time`; the bound handler runs only on a change. */
  function SetTime(s: Session, value: Time): (r: Session)
    requires Live(s) && ValidTime(value)
    ensures Live(r)
    ensures r.time == value && r.activeDate == s.activeDate
    ensures value == s.time ==> r == s
    ensures value != s.time ==>
      && TimeOf(r.dt.value) == value
      && DateList(r.dt.value) == DateList(s.dt.value)
      && r.text == Format(r.dt.value)
    ensures r.oldDt == s.oldDt && r.dismissed == s.dismissed
  {
    if value == s.time then s
    else OnUpdateTextTime(s.(time := value), value)
  }

  /**
    The user submits the text. Unparseable text changes nothing. Otherwise
    each face whose selection differs from the parsed value is set to it
    (running its handler), and `dt` becomes the parsed value.
   */
  function OnTextValidate(s: Session): (r: Session)
    requires Live(s)
    ensures Live(r)
    ensures Parse(s.text).None? ==> r == s
    ensures Parse(s.text).Some? ==>
      && r.dt == Parse(s.text)
      && r.activeDate == DateList(r.dt.value)
      && r.time == TimeOf(r.dt.value)
    ensures Parse(s.text).Some? && s.activeDate == DateList(r.dt.value) && s.time == TimeOf(r.dt.value)
      ==> r.text == s.text
    ensures r.oldDt == s.oldDt && r.dismissed == s.dismissed
  {
    match Parse(s.text)
    case None => s
    case Some(dt) =>
      var s1 := if s.activeDate != DateList(dt) then SetActiveDate(s, DateList(dt)) else s;
      var s2 := if s1.time != TimeOf(dt) then SetTime(s1, TimeOf(dt)) else s1;
      s2.(dt := Some(dt))
  }

  /** OK: submit the text, then close with whatever `dt` holds. */
  function OnOk(s: Session): (r: Session)
    requires Live(s)
    ensures r.dismissed
    ensures Parse(s.text).Some? ==> r.dt == Parse(s.text)
    ensures Parse(s.text).None? ==> r.dt == s.dt
    ensures r.oldDt == s.oldDt
  {
    OnTextValidate(s).(dismissed := true)
  }

  /** Cancel: close with the value the popup was opened with. */
  function OnCancel(s: Session): (r: Session)
    ensures r.dismissed
    ensures r.dt == s.oldDt
    ensures r.oldDt == s.oldDt
  {
    s.(dt := s.oldDt, dismissed := true)
  }

  // ---------- lemmas ----------

  /**
    From agreeing faces, submitting text that parses syncs all three faces
    with the parsed value: the text is re-rendered exactly when a face had
    to change, and is otherwise left as typed.
   */
  lemma ValidateFromAgreement(s: Session)
    requires Live(s) && FacesAgree(s)
    requires Parse(s.text).Some?
    ensures Synced(OnTextValidate(s))
    ensures s.dt == Parse(s.text) ==> OnTextValidate(s) == s
    ensures s.dt != Parse(s.text) ==> OnTextValidate(s).text == Format(Parse(s.text).value)
  {
    var p := Parse(s.text).value;
    var r := OnTextValidate(s);
    var s1 := if s.activeDate != DateList(p) then SetActiveDate(s, DateList(p)) else s;
    if s.dt == Some(p) {
      assert r == s;
    } else {
      if s.activeDate == DateList(p) {
        assert s.time != TimeOf(p);
      } else if s1.time == TimeOf(p) {
        DateAndTimeDetermine(s1.dt.value, p);
      }
      assert r.text == Format(p);
      RoundTrip(p);
    }
  }

  /** From agreeing faces, a submit leaves the session synced exactly when the text parses. */
  lemma ValidateSyncsIffParses(s: Session)
    requires Live(s) && FacesAgree(s)
    ensures Synced(OnTextValidate(s)) <==> Parse(s.text).Some?
  {
  }
}
