# Dictation skill: session state machine and note transcript

This project models the core of a voice skill for dictating short notes. The
user says "Scrivi" to start a note. They dictate it over several turns and end
it with "Fine" (or Finish). The note is saved, and the user can later have their
notes read back or e-mailed to them.

Two pieces are modelled:

- **The dictation state machine.** The intent handlers share two session
  attributes: `state` (not set, `MENU` or `WRITING`) and `note_buffer` (a list
  of fragments). The handlers modelled are StartWriting, CaptureNote, Finish,
  Close, and the WRITING guard in front of ReadNotes and SendEmail.
  - `Dictation.Step` states each handler as a pure transition on
    `Session(state, buffer)`.
  - `Dictation.Run` runs a sequence of turns.
  - The class `Skill.SessionContext` holds the two attributes as mutable
    fields and has one method per handler. Each method is proved to change
    its fields and the `Skill.NoteStore` exactly as `Step` prescribes.
  - Every property of the flow is proved as a lemma about `Step` and `Run`:
    append order, the single-space join on commit, its edge cases with empty
    fragments, the exact-match finish keywords, the list-versus-text
    emptiness gap between the guard and the commit, and the invariant "not
    WRITING implies an empty buffer".
- **The transcript formatter.** The read-back and e-mail handlers turn stored
  `(content, timestamp)` pairs into numbered entries.
  - The date parse-and-format step is a function parameter
    (`string -> Option<string>`). `None` means the timestamp does not parse,
    and the raw timestamp is then shown.
  - `Transcript.FormatEntries` is the formatting loop. It is proved equal to
    the specification `Transcript.Entries`.
  - `Transcript.ReadBackText` joins spoken entries with `". "`.
    `Transcript.MailText` joins mailed entries with line breaks.

The Python string operations the handlers use are stated in module `Text` on
`seq<char>`: `strip()`, `lower()`, `" ".join(...)`, `split` (the inverse of
`join`) and `str(n)`.

Behaviour of the handlers worth stating:

- A captured fragment is acknowledged with the "note received" message (`NoteReceived`) and is stored in the buffer exactly as spoken.
- A fresh session has no `state` key at all (`Absent`). Every handler treats it like `MENU`.
- With the buffer `[""]` the guard answers `PendingNote`, because it tests the list, not
  the joined text (`Dictation.PendingWithoutText`).
- The store's `save_note` accepts any content, empty included. The handlers never pass it
  an empty note (`Dictation.RunKeepsInvariant`).
- Notes are kept until the database is removed: the store has no expiry, and its queries are not
  scoped to a user.

The source also disagrees with itself:

- `save_note` (database.py:20) takes only the text, but main.py:114 and main.py:165
  also pass the user id.
- `get_notes`/`get_all_notes` (database.py:28-44) return content strings only, but
  main.py:219 and main.py:301 unpack `(content, timestamp)` pairs.
- main.py:213 passes the user id where `get_notes` expects its row limit, and
  main.py:289 passes it to `get_all_notes`, which takes no argument.

The model follows the handlers' evident intent:

- A save stores the joined note.
- The stored notes arrive as `(content, timestamp)` pairs.

## Model

| member | source | states |
|---|---|---|
| `Text.Strip` | main.py:108 | `strip()` returns text that has no whitespace at either end and is no longer than its input |
| `Text.StripIsSlice` | main.py:108 | `strip()` returns a slice of its input, and only whitespace (Python's `isspace` set) lies on either side of it |
| `Text.StripKeeps` | main.py:108 | `strip()` keeps every character from the first non-space one to the last, each at its offset from the first |
| `Text.StripUnique` | main.py:108 | the stripped text is uniquely determined: any whitespace-padded text with non-space ends strips to itself |
| `Text.StripPadded` | main.py:108 | adding whitespace around a text never changes what `strip()` returns |
| `Text.StripIdempotent` | main.py:108 | stripping twice is stripping once |
| `Text.LowerKeepsSpace` | main.py:108 | `lower()` leaves whitespace unchanged, so lowering before stripping removes the same padding as stripping alone |
| `Text.LowerIdempotent` | main.py:108 | lowering twice is lowering once |
| `Text.JoinAppend` | main.py:112 | joining one more fragment adds the separator and that fragment at the end, so fragments appear in insertion order |
| `Text.JoinEmptyIff` | main.py:112-113 | with a non-empty separator, the joined text is empty exactly when the list is `[]` or `[""]` |
| `Text.Split` | main.py:312 | splitting at a character yields one more piece than it has occurrences, and no piece contains it |
| `Text.SplitJoin` | main.py:312 | splitting undoes joining when no part contains the separator |
| `Text.JoinSplit` | main.py:312 | joining undoes splitting |
| `Text.NatToString` | main.py:228 | `str(i)` is a non-empty string of decimal digits with no leading zero |
| `Text.DecimalRoundTrip` | main.py:228 | the decimal text of an entry number reads back as that number |
| `Dictation.KeywordIgnoresPaddingAndCase` | main.py:107-108 | the finish-keyword test is unchanged by surrounding whitespace and by lower-casing |
| `Dictation.PaddedUpperCaseFinishes` | main.py:108 | an upper-case "FINE" padded with any whitespace (e.g. `" FINE "`) is a finish keyword |
| `Dictation.MentionDoesNotFinish` | main.py:107-108 | a fragment that mentions "fine" after some other non-space text is not a finish keyword |
| `Dictation.SentenceWithFineDoesNotFinish` | main.py:108 | "va bene, fine per oggi" is not a finish keyword |
| `Dictation.UnpaddedKeyword` | main.py:108 | a fragment with non-space ends is a keyword exactly when its lower-case form is one of the four keywords |
| `Dictation.FineFinishes` | main.py:107 | "fine" alone is a finish keyword |
| `Dictation.StartWritingResets` | main.py:82-84 | from any state (not set, MENU, WRITING), StartWriting enters WRITING with an empty buffer, discarding earlier fragments, and saves nothing |
| `Dictation.CaptureIgnoredOutsideWriting` | main.py:142-149 | outside WRITING, including when the state key is absent, a capture changes nothing, saves nothing and answers NotUnderstood |
| `Dictation.FinishIgnoredOutsideWriting` | main.py:180-187 | outside WRITING, Finish changes nothing, saves nothing and answers NotWriting |
| `Dictation.CaptureAppends` | main.py:131-135 | in WRITING, a non-keyword fragment is appended as is (not normalised; "" for a slot with no value), the state stays WRITING, nothing is saved, and the answer is NoteReceived |
| `Dictation.KeywordActsAsFinish` | main.py:108-128 | in WRITING, a keyword fragment has exactly the effect of Finish |
| `Dictation.FinishCommits` | main.py:160-179 | in WRITING, Finish returns to MENU with an empty buffer. It saves the space-joined buffer exactly once when that is non-empty (NoteSaved); otherwise it saves nothing (NothingSaid) |
| `Dictation.NothingSavedIff` | main.py:163-168 | in WRITING, Finish saves nothing exactly when the buffer is `[]` or `[""]` |
| `Dictation.FullNoteEdgeCases` | main.py:163 | `[]` and `[""]` join to "" while `["", ""]` joins to " " |
| `Dictation.PendingWithoutText` | main.py:198-203 | the guard reports a pending note while Finish would save nothing exactly for the buffer `[""]` |
| `Dictation.GuardsChangeNothing` | main.py:198-209 | the ReadNotes and SendEmail guards never change the session and never save |
| `Dictation.CloseDiscards` | main.py:388-392 | Close in WRITING returns to MENU with an empty buffer and saves nothing; in any other state it changes nothing |
| `Dictation.StepKeepsInvariant` | main.py:388-392 | every handler keeps "not WRITING implies empty buffer", and every note it saves is non-empty |
| `Dictation.RunKeepsInvariant` | main.py:120-121 | every conversation keeps the invariant, never saves an empty note and saves at most one note per turn |
| `Dictation.CapturesAppend` | main.py:131-133 | in WRITING, capturing non-keyword fragments appends them to the buffer in order and saves nothing |
| `Dictation.DictationRoundTrip` | main.py:111-121 | StartWriting, fragments f1..fn and then Finish or a keyword save exactly f1 + " " + ... + fn (nothing if that is empty) and end in MENU with an empty buffer |
| `Dictation.ShoppingListScenario` | main.py:104-121 | dictating "comprare il latte", "e il pane", then "fine" stores exactly "comprare il latte e il pane" |
| `Transcript.FormatEntries` | main.py:219-228 | the formatting loop produces exactly the specified entries: one per note, in order, numbered from 1 |
| `Transcript.EntriesAppend` | main.py:219-228 | one more note adds exactly one entry at the end, numbered one past the others, and leaves earlier entries unchanged |
| `Transcript.EntryShowsDate` | main.py:220-225 | each entry shows the formatted date when the timestamp parses and the raw timestamp otherwise; rendering never fails |
| `Transcript.MailedEntryNumber` | main.py:301-310 | mailed entry k starts with the decimal number k + 1 followed by "." |
| `Transcript.MailedEntryOneLine` | main.py:310 | a mailed entry has no line break when its date and content have none |
| `Transcript.MailLinesAreEntries` | main.py:301-312 | when no content or shown date holds a line break, the e-mail listing splits back into exactly the entries, one line per note |
| `Transcript.ReadBackAppend` | main.py:229-230 | the read-back of one more note speaks it last, numbered one past the others, between ". " separators and before ". " and the menu prompt |
| `Transcript.ReadBackSingle` | main.py:229-230 | a single note is read back as prefix, its entry, ". " and the menu prompt |
| `Skill.NoteStore.constructor` | database.py:6-18 | a store created with a fresh database holds no notes; for an existing database the model's notes are the rows saved from then on |
| `Skill.NoteStore.SaveNote` | database.py:20-26 | a save appends exactly one row holding the content |
| `Skill.SessionContext.constructor` | main.py:100 | a new session has no attributes set |
| `Skill.SessionContext.StartWriting` | main.py:81-92 | the fields become what `Step` prescribes for StartWriting, and the invariant then holds |
| `Skill.SessionContext.EndDictation` | main.py:111-121 | in WRITING, the space-joined buffer is saved to the store when non-empty, and the session returns to MENU with an empty buffer |
| `Skill.SessionContext.CaptureNote` | main.py:98-149 | fields, response and store change exactly as `Step` prescribes for a capture, and the invariant is preserved |
| `Skill.SessionContext.Finish` | main.py:156-187 | fields, response and store change exactly as `Step` prescribes for Finish, and the invariant is preserved |
| `Skill.SessionContext.Close` | main.py:386-394 | fields and response are as `Step` prescribes for Close, and the invariant is preserved |
| `Skill.SessionContext.ReadNotes` | main.py:193-239 | in WRITING the answer is the guard's and does not depend on the stored notes; otherwise no notes gives NoNotes, and some notes give the read-back text |
| `Skill.SessionContext.SendEmail` | main.py:245-380 | in WRITING the answer is the guard's. Otherwise the checks run in the handler's order (address lookup, empty address, no notes, missing mail server, transport result), and the message carries the prefixed e-mail listing |
| `Skill.CaptureAll` | main.py:131-135 | passing non-keyword fragments in order to a WRITING session's capture handler appends exactly them to its buffer and leaves the store unchanged |
| `Skill.DictateAndFinish` | main.py:98-187 | driving a new session's handlers through StartWriting, the fragments and Finish leaves the store holding exactly the space-joined fragments (or nothing when that text is empty) |

## Left out

- Text.Lower: lowers only the ASCII letters A-Z, not the full Unicode case map of Python's `lower()`. The finish-keyword decision is unaffected, because no other character lowers to a letter of the four keywords or to whitespace.
- Message texts loaded from environment variables: each text is a response class, and the read-back prefix, menu prompt and e-mail body prefix are parameters.
- The read-back entry template: it is fixed to its default "Nota {num} del {date}: {content}". An overriding template from the environment is not modelled.
- Timestamp parsing and date formatting (`strptime`/`strftime` with the configured pattern): an arbitrary function parameter that may fail.
- Skill.SessionContext.ReadNotes: the stored notes are a parameter. Fetching them (at most 5, newest first; all of them for the e-mail) is a database query that is not part of this model.
- Skill.SessionContext.SendEmail: the address lookup result, the mail-server setting and the transport's success are parameters. Credentials, encryption choice, the sender address, the subject and the SMTP session are not modelled.
- Per-user scoping of notes: the user id passed to the save is not recorded, because the store's save takes no user.
- Retention and expiry of notes: the code has none.
- The catch-all exception handler: it is not modelled. That includes the error a missing "note" slot or the save's extra argument would raise.
- Launch, Help, Cancel/Stop and SessionEnded: they only speak fixed texts and change no state.
- Request verification, handler registration and web routing: framework glue, not part of this model.
- Logging: left out.
