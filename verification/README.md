# DatetimeEditorPopup editing session, in Dafny

`kivy_mt` provides date-time widgets for the Kivy toolkit. The module
docstring (kivy_mt/datetime_editor.py:7-12) describes an editor whose popup
combines date, time and text entry. That popup is `DatetimeEditorPopup`.
The `DatetimeEditor` text input, as written, opens a clock-only popup instead
(lines 201-204, 220), and it cannot even be constructed (line 191). Nothing in
the file constructs `DatetimeEditorPopup`, so it is modelled on its own. The
popup holds one `datetime` value `dt` and keeps three faces of it in step:

- the calendar widget's `active_date`, a `[day, month, year]` list;
- the clock widget's `time`;
- a text input holding `dt` rendered with the pattern `%Y-%m-%d %H:%M:%S`.

The session ends with OK, which commits the value, or Cancel, which restores
the value the popup was opened with.

This project models that session as immutable records and pure transition
functions, and proves how each event changes the value and its faces.

- `Gregorian` (gregorian.dfy) holds second-precision date-times and times of
  day. It also holds the validity rules Python's `datetime(...)` constructor
  enforces: years 1-9999, month lengths, leap years, and a 24-hour clock.
- `DefaultFormat` (format.dfy) holds `Format` and `Parse`. `Format` renders
  like `strftime` with the default pattern. `Parse` reads like CPython's
  `strptime` with that pattern. The parser is more lenient than the renderer,
  because `strptime` matches with regular expressions:
  - `%m`, `%d`, `%H`, `%M` and `%S` may be one or two digits;
  - `%d` may be a blank followed by a digit 1-9;
  - the blank in the pattern matches any run of whitespace;
  - `%S` matches up to 61, and the `datetime` constructor then rejects 60 and 61.
- `Editor` (editor.dfy) holds the session record and one function per handler
  of the popup: `__init__`, `on_update_text_date`, `on_update_text_time`,
  `on_text_validate`, `on_ok` and `on_cancel`.
- `EditSession` (session.dfy) runs whole sessions: open, a sequence of edits,
  then OK or Cancel.
- `Wrappers` (wrappers.dfy) holds the `Option` type, which represents both an
  absent `dt` and a failed parse.

Kivy's property mechanism is modelled explicitly. Writing the calendar's
`active_date` or the clock's `time` runs the handler bound to it, but only when
the new value differs from the old one. `on_text_validate` writes those faces,
so a successful submit runs the date and time handlers before it sets `dt`
itself. Those handlers re-render the text, so the text ends up as `Format(dt)`
whenever a face had to change. When no face changed, the typed text is left as
it was, for example `2024-6-1 8:0:0`. The microseconds note under
"## Left out" describes when the program re-renders the text where the model
does not. `__init__` sets the faces before it binds the handlers, so opening
the popup runs none of them.

The clock read `datetime.now()` is an input of `Editor.Open`.

## Model

| member | source | states |
|---|---|---|
| Gregorian.DaysInMonth | kivy_mt/datetime_editor.py:134 | month lengths of the calendar the `datetime` constructor checks: 31/30 by month, February 29 exactly in leap years |
| Gregorian.WithDate | kivy_mt/datetime_editor.py:134 | reading a `[day, month, year]` list gives a valid date-time whose calendar list is that list and whose time of day is unchanged |
| Gregorian.WithTime | kivy_mt/datetime_editor.py:139 | a new time of day gives a valid date-time with that time and the same calendar date |
| Gregorian.DateAndTimeDetermine | kivy_mt/datetime_editor.py:124-128 | two date-times with equal calendar lists and equal times of day are equal, so matching both faces means matching `dt` |
| DefaultFormat.Format | kivy_mt/datetime_editor.py:115 | the rendering is 19 characters with `-`, `-`, blank, `:`, `:` at fixed places; each field is the zero-padded decimal of its component (four digits for the year, two for the others); and it parses back to the rendered value |
| DefaultFormat.Parse | kivy_mt/datetime_editor.py:123 | whatever `strptime` accepts is a valid date-time |
| DefaultFormat.ParsePadded | kivy_mt/datetime_editor.py:123 | zero-padded fields within the pattern's ranges always match; the text is then accepted exactly when the fields form a valid date-time |
| DefaultFormat.RoundTrip | kivy_mt/datetime_editor.py:103-123 | for every valid date-time, parsing its rendering under the default pattern gives it back |
| DefaultFormat.FormatInjective | kivy_mt/datetime_editor.py:115 | distinct date-times render to distinct texts |
| DefaultFormat.RejectsGarbage | kivy_mt/datetime_editor.py:122-130 | the text "not a date" does not parse |
| DefaultFormat.RejectsFebruary29InCommonYear | kivy_mt/datetime_editor.py:123 | "2023-02-29 00:00:00" matches the pattern but is rejected as a date |
| DefaultFormat.RejectsLeapSecond | kivy_mt/datetime_editor.py:123 | "2024-06-01 08:00:60" matches the pattern but is rejected as a time |
| DefaultFormat.AcceptsUnpaddedFields | kivy_mt/datetime_editor.py:123 | "2024-6-1  8:0:5" (unpadded fields, wider blank) parses to 2024-06-01 08:00:05 |
| Editor.Open | kivy_mt/datetime_editor.py:105-118 | the opening value is kept for Cancel even when absent; `dt` is that value or, when absent, `now`; calendar, clock and text all show `dt`, and the text parses back to it |
| Editor.OnUpdateTextDate | kivy_mt/datetime_editor.py:132-135 | the reported `[day, month, year]` becomes `dt`'s date and its time of day is unchanged; the text is re-rendered and parses back to the new `dt`; the faces, the opening value and the closed flag are untouched |
| Editor.OnUpdateTextTime | kivy_mt/datetime_editor.py:137-140 | the reported time replaces only `dt`'s time of day and its date is unchanged; the text is re-rendered and parses back to the new `dt`; nothing else changes |
| Editor.SetActiveDate | kivy_mt/datetime_editor.py:117 | writing the calendar's selection changes nothing else when the value is unchanged; otherwise it runs the date handler, which moves `dt` to the new date |
| Editor.SetTime | kivy_mt/datetime_editor.py:118 | writing the clock's selection changes nothing else when the value is unchanged; otherwise it runs the time handler, which moves `dt` to the new time |
| Editor.OnTextValidate | kivy_mt/datetime_editor.py:120-130 | unparseable text leaves the whole session unchanged; parseable text makes `dt` the parsed value and sets both faces to its components; the text is kept as typed when both faces already showed them |
| Editor.ValidateFromAgreement | kivy_mt/datetime_editor.py:120-130 | from agreeing faces, a successful submit syncs all three faces; it is a no-op when the text already denotes `dt`, and otherwise re-renders the text from the parsed value |
| Editor.ValidateSyncsIffParses | kivy_mt/datetime_editor.py:120-130 | from agreeing faces, the session is synced after a submit exactly when the text parsed |
| Editor.OnOk | kivy_mt/datetime_editor.py:142-146 | OK closes the popup with the parsed text when it parses, and with the current `dt` otherwise |
| Editor.OnCancel | kivy_mt/datetime_editor.py:148-152 | Cancel closes the popup with the opening value, which may be absent |
| EditSession.Step | kivy_mt/datetime_editor.py:120-140 | no single edit changes the opening value or closes the popup; every edit keeps calendar and clock agreeing with `dt`; typing never changes `dt` |
| EditSession.Apply | kivy_mt/datetime_editor.py:108-140 | any sequence of edits keeps the opening value, keeps `dt` present and valid, and keeps the faces agreeing with `dt` |
| EditSession.Finish | kivy_mt/datetime_editor.py:142-152 | both OK and Cancel close the popup; Cancel yields the opening value; OK yields `dt` as the submit leaves it |
| EditSession.Outcome | kivy_mt/datetime_editor.py:105-152 | a session closed by Cancel yields the opening value whatever the edits, even when that value was absent; a session closed by OK always yields a valid date-time |
| EditSession.FacesAgreeThroughout | kivy_mt/datetime_editor.py:113-140 | after every prefix of a session's edits, calendar and clock show `dt` |
| EditSession.OkCapturesPendingText | kivy_mt/datetime_editor.py:142-146 | OK yields the value of the final text when it parses, and the edited `dt` otherwise |
| EditSession.OkCommitsTypedText | kivy_mt/datetime_editor.py:120-146 | text typed but never submitted is still committed by OK when it parses |
| EditSession.SubmitSyncs | kivy_mt/datetime_editor.py:120-130 | at any point of a session, submitting parseable text leaves calendar, clock and text all showing `dt` |
| EditSession.ClockEditOnNewYear | kivy_mt/datetime_editor.py:137-140 | opened on 2023-01-01 00:00:00, setting the clock to 15:30:00 gives `dt` 2023-01-01 15:30:00 and the text "2023-01-01 15:30:00" |
| EditSession.TypedJuneMorning | kivy_mt/datetime_editor.py:120-128 | typing and submitting "2024-06-01 08:00:00" sets the calendar to [1, 6, 2024], the clock to 08:00:00 and `dt` to that value |
| EditSession.EditTypeSubmitCancel | kivy_mt/datetime_editor.py:137-152 | the whole walk-through: clock edit, typed submit, then Cancel yields 2023-01-01 00:00:00 |
| EditSession.GarbageSubmitChangesNothing | kivy_mt/datetime_editor.py:122-130 | typing "not a date" and submitting it changes nothing except the text itself |

## Left out

- Patterns other than the default `%Y-%m-%d %H:%M:%S`. The popup's `format` property can be set by its creator, but general `strftime`/`strptime` patterns belong to Python's library. `Format` and `Parse` are defined for the default pattern only.
- DefaultFormat.Format: renders years below 1000 zero-padded to four digits. On some platforms the C library's `strftime` leaves them unpadded, and `strptime`'s four-digit `%Y` then rejects the text.
- DefaultFormat.Parse: `strptime` matches digits and whitespace Unicode-wide (`\d`, `\s`). The model accepts only ASCII digits and the ASCII characters Python counts as whitespace: blank, tab, line feed, carriage return, vertical tab, form feed, and the separators U+001C to U+001F.
- Microseconds. The opening value carries them into `dt` and the clock face (line 114), whether it is `datetime.now()` or a supplied `dt`. The handlers and the parser drop them. The model works at second precision throughout, so its clock face never holds microseconds. In the program, while the clock face still holds the opening value's non-zero microseconds, every comparison with a second-precision time finds a difference. That covers the check at line 126 and Kivy's change check on the binding at line 118. So a submit, or a clock pick of the same hour, minute and second, runs `on_update_text_time` and re-renders the text (line 140), overwriting any typed text. The model treats those as unchanged faces and keeps the text. For example, after typing `t` and then picking the opening time on the clock, OK yields `Parse(t)` in the model but the opening value truncated to the second in the program. Once a clock write has put a second-precision time on the face, the two agree again.
- The calendar and clock widgets' internals. Their events are inputs, and the model assumes they report only real dates and times (`EditSession.Deliverable`). The `ValueError` that `datetime(...)` would raise on an impossible date is therefore not modelled.
- Editor.OnUpdateTextDate, Editor.OnUpdateTextTime, Editor.OnTextValidate and Editor.OnOk require `dt` to be present, because the handlers read `self.dt` at lines 134 and 139. `dt` is absent only after Cancel on a popup that was opened without a value. The popup is dismissed by then, and `EditSession` delivers no event after OK or Cancel.
- `dismiss()` is modelled as the `dismissed` flag. What Kivy does on dismissal is not modelled.
- The `print` calls (lines 145, 151), the kv layout (lines 56-97) and `Factory.register` (line 229) are console output, layout and framework registration.
- The `DatetimeEditor` text-input class (lines 158-226) is not modelled. It cannot run as written:
  - its initializer calls `super(CircularTimePicker, self)`, which names a different class;
  - it calls `datetime.datetime.now()` and `datetime.datetime.strptime` although it imports the class `datetime` itself;
  - it uses `Window` without importing it.
  
  Apart from that it is focus, popup-sizing (`pHint`) and keyboard handling.
- setup.py is packaging metadata.
