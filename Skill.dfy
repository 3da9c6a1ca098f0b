/** The intent handlers that own the dictation session: a `SessionContext`
    object holding the two session attributes the handlers update in place,
    with one method per handler, and the `NoteStore` the finish path saves
    into. Each state-changing handler is proved to follow `Dictation.Step`;
    the read-back and e-mail handlers are proved to return what the guard and
    the transcript functions prescribe. */
module Skill {
  import opened Wrappers
  import opened Text
  import opened Dictation
  import opened Transcript

  /** The saving side of the note store: every save adds one row. */
  class NoteStore {
    var notes: seq<string>

    constructor ()
      ensures notes == []
    {
      notes := [];
    }

    method SaveNote(content: string)
      modifies this
      ensures notes == old(notes) + [content]
    {
      notes := notes + [content];
    }
  }

  /** Outcome of looking up the user's e-mail address: the lookup failed
      (permission missing), or it returned an address ("" when none is set). */
  datatype EmailLookup = LookupFailed | Address(address: string)

  /** A message handed to the mail transport. */
  datatype Email = Email(to: string, body: string)

  /** What the read-back handler answers. */
  datatype ReadReply = ReadGuarded(response: Response) | NoNotes | Recite(text: string)

  /** What the e-mail handler answers. */
  datatype SendReply =
    | SendGuarded(response: Response)
    | PermissionNeeded
    | EmailNotFound
    | NoNotesToSend
    | SmtpConfigError
    | EmailError
    | EmailSent(mail: Email)

  /** The per-conversation session attributes "state" and "note_buffer". */
  class SessionContext {
    var state: State
    var buffer: seq<string>

    function Attributes(): Session
      reads this
    {
      Session(state, buffer)
    }

    /** A new session has no attributes set. */
    constructor ()
      ensures Attributes() == Initial
    {
      state, buffer := Absent, [];
    }

    /** StartWriting: enter WRITING with a fresh, empty buffer. */
    method StartWriting() returns (r: Response)
      modifies this
      ensures Attributes() == Step(old(Attributes()), StartWritingIntent).next
      ensures r == Step(old(Attributes()), StartWritingIntent).reply
      ensures Inv(Attributes())
    {
      state := Writing;
      buffer := [];
      r := ReadyToWrite;
    }

    /** The finish path shared by Finish and a finish-keyword capture. */
    method EndDictation(store: NoteStore) returns (r: Response)
      requires state == Writing
      modifies this, store
      ensures Attributes() == Commit(old(buffer)).next
      ensures r == Commit(old(buffer)).reply
      ensures store.notes == old(store.notes) + Commit(old(buffer)).saved
    {
      var full := FullNote(buffer);
      if full != "" {
        store.SaveNote(full);
        r := NoteSaved;
      } else {
        r := NothingSaid;
      }
      state := Menu;
      buffer := [];
    }

    /** CaptureNote: in WRITING, a finish keyword ends dictation and any
        other text is appended to the buffer; elsewhere it is not understood. */
    method CaptureNote(slot: Option<string>, store: NoteStore) returns (r: Response)
      modifies this, store
      ensures Attributes() == Step(old(Attributes()), CaptureNoteIntent(slot)).next
      ensures r == Step(old(Attributes()), CaptureNoteIntent(slot)).reply
      ensures store.notes == old(store.notes) + Step(old(Attributes()), CaptureNoteIntent(slot)).saved
      ensures Inv(old(Attributes())) ==> Inv(Attributes())
    {
      if state == Writing {
        var text := NoteText(slot);
        if IsFinishKeyword(text) {
          r := EndDictation(store);
        } else {
          buffer := buffer + [text];
          r := NoteReceived;
        }
      } else {
        r := NotUnderstood;
      }
    }

    /** Finish: in WRITING, commit the buffer; elsewhere answer that no note
        is being written. */
    method Finish(store: NoteStore) returns (r: Response)
      modifies this, store
      ensures Attributes() == Step(old(Attributes()), FinishIntent).next
      ensures r == Step(old(Attributes()), FinishIntent).reply
      ensures store.notes == old(store.notes) + Step(old(Attributes()), FinishIntent).saved
      ensures Inv(old(Attributes())) ==> Inv(Attributes())
    {
      if state == Writing {
        r := EndDictation(store);
      } else {
        r := NotWriting;
      }
    }

    /** Close: in WRITING, drop the buffer unsaved and go back to MENU; the
        handler speaks nothing. */
    method Close() returns (r: Response)
      modifies this
      ensures Attributes() == Step(old(Attributes()), CloseIntent).next
      ensures r == Step(old(Attributes()), CloseIntent).reply
      ensures Inv(old(Attributes())) ==> Inv(Attributes())
    {
      if state == Writing {
        state := Menu;
        buffer := [];
      }
      r := Silent;
    }

    /** ReadNotes: while WRITING only the guard answers and the stored notes
        play no part; otherwise the stored notes are read back, or the user
        is told there are none. `stored` stands for the notes the store
        returns for the user. */
    method ReadNotes(stored: seq<StoredNote>, format: DateFormatter, prefix: string, menu: string)
      returns (reply: ReadReply)
      ensures state == Writing ==> reply == ReadGuarded(Guard(Attributes(), PendingNote))
      ensures state != Writing && stored == [] ==> reply == NoNotes
      ensures state != Writing && stored != [] ==> reply == Recite(ReadBackText(stored, format, prefix, menu))
    {
      var verdict := Guard(Attributes(), PendingNote);
      if verdict != Proceed {
        return ReadGuarded(verdict);
      }
      if stored == [] {
        return NoNotes;
      }
      var entries := FormatEntries(Spoken, stored, format);
      reply := Recite(prefix + Join(entries, ". ") + ". " + menu);
    }

    /** SendEmail: while WRITING only the guard answers. Otherwise the checks
        run in the handler's order: the address lookup, the address, the
        stored notes, the mail server setting, and finally the transport,
        given the message built from the mailed entries. */
    method SendEmail(lookup: EmailLookup, stored: seq<StoredNote>, format: DateFormatter,
                     bodyPrefix: string, server: string, deliver: Email -> bool)
      returns (reply: SendReply)
      ensures state == Writing ==> reply == SendGuarded(Guard(Attributes(), PendingNoteSend))
      ensures state != Writing ==>
        reply == (if lookup.LookupFailed? then PermissionNeeded
                  else if lookup.address == "" then EmailNotFound
                  else if stored == [] then NoNotesToSend
                  else if server == "" then SmtpConfigError
                  else
                    var mail := Email(lookup.address, bodyPrefix + MailText(stored, format));
                    if deliver(mail) then EmailSent(mail) else EmailError)
    {
      var verdict := Guard(Attributes(), PendingNoteSend);
      if verdict != Proceed {
        return SendGuarded(verdict);
      }
      if lookup.LookupFailed? {
        return PermissionNeeded;
      }
      if lookup.address == "" {
        return EmailNotFound;
      }
      if stored == [] {
        return NoNotesToSend;
      }
      var entries := FormatEntries(Mailed, stored, format);
      var text := Join(entries, "\n");
      if server == "" {
        return SmtpConfigError;
      }
      var mail := Email(lookup.address, bodyPrefix + text);
      if deliver(mail) {
        reply := EmailSent(mail);
      } else {
        reply := EmailError;
      }
    }
  }

  /** Passes each fragment, in order, to the capture handler of a session
      in WRITING. None of them is a finish keyword, so each one is appended
      to the buffer and nothing is saved. */
  method CaptureAll(session: SessionContext, store: NoteStore, fragments: seq<string>)
    requires session.state == Writing
    requires NoFinishKeyword(fragments)
    modifies session, store
    ensures session.Attributes() == Session(Writing, old(session.buffer) + fragments)
    ensures store.notes == old(store.notes)
  {
    var i := 0;
    while i < |fragments|
      invariant 0 <= i <= |fragments|
      invariant session.Attributes() == Session(Writing, old(session.buffer) + fragments[..i])
      invariant store.notes == old(store.notes)
    {
      ghost var before := session.Attributes();
      CaptureAppends(before, Some(fragments[i]));
      var _ := session.CaptureNote(Some(fragments[i]), store);
      assert old(session.buffer) + fragments[..i + 1] == before.buffer + [fragments[i]];
      i := i + 1;
    }
    assert fragments[..i] == fragments;
  }

  /** A whole dictation through the handlers of a new session: StartWriting,
      one CaptureNote per fragment (none of them a finish keyword), then
      Finish. The store ends up holding exactly the fragments joined by
      spaces, or nothing when that text is empty. */
  method DictateAndFinish(fragments: seq<string>) returns (saved: seq<string>, reply: Response)
    requires NoFinishKeyword(fragments)
    ensures saved == (if FullNote(fragments) != "" then [FullNote(fragments)] else [])
    ensures reply == (if FullNote(fragments) != "" then NoteSaved else NothingSaid)
  {
    var store := new NoteStore();
    var session := new SessionContext();
    var _ := session.StartWriting();
    CaptureAll(session, store, fragments);
    assert [] + fragments == fragments;
    FinishCommits(session.Attributes());
    reply := session.Finish(store);
    saved := store.notes;
  }
}
