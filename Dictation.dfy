/** The per-session dictation state machine carried by the skill's intent
    handlers (StartWriting, CaptureNote, Finish, the WRITING guard in front of
    ReadNotes and SendEmail, Close), stated as a pure transition function over
    the two session attributes "state" and "note_buffer". The handlers of
    `Skill.SessionContext` are proved to follow `Step`; everything the source
    promises about the dictation flow is proved here about `Step` and `Run`. */
module Dictation {
  import opened Wrappers
  import opened Text

  /** The "state" session attribute; `Absent` while the key is not set. */
  datatype State = Absent | Menu | Writing

  /** The session attributes the handlers use. A "note_buffer" key that is
      not set reads as the empty list. */
  datatype Session = Session(state: State, buffer: seq<string>)

  /** The response classes the handlers speak (each stands for one of the
      configurable message texts). `Proceed` is the guard's verdict that the
      read-back or e-mail flow may go on to the note store. */
  datatype Response =
    | ReadyToWrite | NoteReceived | NoteSaved | NothingSaid | NotWriting
    | NotUnderstood | PendingNote | PendingNoteSend | WritingInProgress
    | Proceed | Silent

  /** The intents that reach the state machine; `slot` is the value of the
      "note" slot, `None` when the recognizer left it empty. */
  datatype Intent =
    | StartWritingIntent
    | CaptureNoteIntent(slot: Option<string>)
    | FinishIntent
    | ReadNotesIntent
    | SendEmailIntent
    | CloseIntent

  /** One turn: the session afterwards, the response, and the notes handed
      to the store during the turn. */
  datatype Outcome = Outcome(next: Session, reply: Response, saved: seq<string>)

  /** A sequence of turns: the final session, the responses in order, and the
      notes saved in order. */
  datatype Trace = Trace(last: Session, replies: seq<Response>, saved: seq<string>)

  /** A fresh session: no attribute set yet. */
  const Initial := Session(Absent, [])

  /** Outside WRITING the buffer is logically empty. */
  predicate Inv(s: Session) {
    s.state != Writing ==> s.buffer == []
  }

  const FinishKeywords: seq<string> := ["fine", "finito", "basta", "ho finito"]

  /** A fragment ends dictation when the whole of it, lower-cased and then
      stripped of surrounding whitespace, is one of the keywords. */
  predicate IsFinishKeyword(text: string) {
    Strip(Lower(text)) in FinishKeywords
  }

  /** No fragment of a dictation is a finish keyword. */
  predicate NoFinishKeyword(fragments: seq<string>) {
    forall k {:trigger IsFinishKeyword(fragments[k])} :: 0 <= k < |fragments| ==> !IsFinishKeyword(fragments[k])
  }

  /** The captured text: the slot value, or "" when it is missing or empty. */
  function NoteText(slot: Option<string>): string {
    match slot
    case Some(v) => v
    case None => ""
  }

  /** The note a buffer commits to: its fragments joined by single spaces. */
  function FullNote(buffer: seq<string>): string {
    Join(buffer, " ")
  }

  /** Ending dictation: save the full note when it is non-empty, then go back
      to MENU with an empty buffer on both branches. */
  function Commit(buffer: seq<string>): Outcome {
    var full := FullNote(buffer);
    if full != "" then Outcome(Session(Menu, []), NoteSaved, [full])
    else Outcome(Session(Menu, []), NothingSaid, [])
  }

  /** The WRITING guard in front of the read-back and e-mail flows. It looks
      at the buffer LIST, not at the text it would join to. */
  function Guard(s: Session, pending: Response): (r: Response)
    requires pending == PendingNote || pending == PendingNoteSend
    ensures r == Proceed <==> s.state != Writing
    ensures r == pending <==> s.state == Writing && s.buffer != []
    ensures r == WritingInProgress <==> s.state == Writing && s.buffer == []
  {
    if s.state != Writing then Proceed
    else if s.buffer != [] then pending
    else WritingInProgress
  }

  /** The capture handler: in WRITING, a finish keyword ends dictation and
      any other text is appended as is; elsewhere it is not understood. */
  function CaptureTurn(s: Session, slot: Option<string>): Outcome {
    if s.state != Writing then Outcome(s, NotUnderstood, [])
    else
      var text := NoteText(slot);
      if IsFinishKeyword(text) then Commit(s.buffer)
      else Outcome(Session(Writing, s.buffer + [text]), NoteReceived, [])
  }

  /** The Finish handler: commit in WRITING, otherwise nothing to finish. */
  function FinishTurn(s: Session): Outcome {
    if s.state == Writing then Commit(s.buffer) else Outcome(s, NotWriting, [])
  }

  /** The Close handler: drop the buffer in WRITING; it speaks nothing. */
  function CloseTurn(s: Session): Outcome {
    if s.state == Writing then Outcome(Session(Menu, []), Silent, [])
    else Outcome(s, Silent, [])
  }

  /** One turn of the state machine. */
  function Step(s: Session, intent: Intent): Outcome {
    match intent
    case StartWritingIntent => Outcome(Session(Writing, []), ReadyToWrite, [])
    case CaptureNoteIntent(slot) => CaptureTurn(s, slot)
    case FinishIntent => FinishTurn(s)
    case ReadNotesIntent => Outcome(s, Guard(s, PendingNote), [])
    case SendEmailIntent => Outcome(s, Guard(s, PendingNoteSend), [])
    case CloseIntent => CloseTurn(s)
  }

  /** A conversation: the turns applied one after the other. */
  function Run(s: Session, intents: seq<Intent>): (t: Trace)
    ensures |t.replies| == |intents|
    decreases intents
  {
    if intents == [] then Trace(s, [], [])
    else
      var o := Step(s, intents[0]);
      var t := Run(o.next, intents[1..]);
      Trace(t.last, [o.reply] + t.replies, o.saved + t.saved)
  }

  /** One capture turn per fragment, each fragment given as the slot value. */
  function Captures(fragments: seq<string>): (intents: seq<Intent>)
    ensures |intents| == |fragments|
    ensures forall k :: 0 <= k < |fragments| ==> intents[k] == CaptureNoteIntent(Some(fragments[k]))
  {
    seq(|fragments|, k requires 0 <= k < |fragments| => CaptureNoteIntent(Some(fragments[k])))
  }

  /** The two ways of ending dictation: the Finish intent, or a captured
      fragment that is a finish keyword. */
  predicate Ends(intent: Intent) {
    || intent == FinishIntent
    || (intent.CaptureNoteIntent? && IsFinishKeyword(NoteText(intent.slot)))
  }

  // ---------------------------------------------------------------------------
  // The finish-keyword test
  // ---------------------------------------------------------------------------

  /** The keyword test ignores surrounding whitespace and letter case. */
  lemma KeywordIgnoresPaddingAndCase(w1: string, t: string, w2: string)
    requires AllSpace(w1) && AllSpace(w2)
    ensures IsFinishKeyword(w1 + t + w2) == IsFinishKeyword(t)
    ensures IsFinishKeyword(Lower(t)) == IsFinishKeyword(t)
  {
    LowerConcat(w1 + t, w2);
    LowerConcat(w1, t);
    LowerKeepsSpace(w1);
    LowerKeepsSpace(w2);
    StripPadded(w1, Lower(t), w2);
    LowerIdempotent(t);
  }

  /** An upper-case keyword padded with whitespace ends dictation, as " FINE "
      does. */
  lemma PaddedUpperCaseFinishes(w1: string, w2: string)
    requires AllSpace(w1) && AllSpace(w2)
    ensures IsFinishKeyword(w1 + "FINE" + w2)
  {
    assert IsFinishKeyword("FINE") by {
      UnpaddedKeyword("FINE");
      assert Lower("FINE") == "fine";
    }
    KeywordIgnoresPaddingAndCase(w1, "FINE", w2);
  }

  /** No keyword holds an 'e' after its fourth letter, so none of them
      contains "fine" anywhere but at its very start. */
  lemma NoLateE(r: string, q: nat)
    requires 4 <= q < |r| && r[q] == 'e'
    ensures r !in FinishKeywords
  {
  }

  /** Mentioning "fine" after some other word does not end dictation: only a
      fragment that is a keyword as a whole does. */
  lemma {:induction false} MentionDoesNotFinish(a: string, b: string)
    requires !AllSpace(a)
    ensures !IsFinishKeyword(a + "fine" + b)
  {
    var t := a + "fine" + b;
    var k :| 0 <= k < |a| && !IsSpace(a[k]);
    assert t[k] == a[k] && t[|a| + 3] == 'e';
    var s := Lower(t);
    assert !IsSpace(s[|a| + 3]);
    var q := StripKeeps(s, k, |a| + 3);
    NoLateE(Strip(s), q);
  }

  /** The sentence "va bene, fine per oggi" is captured, not a finish. */
  lemma SentenceWithFineDoesNotFinish()
    ensures !IsFinishKeyword("va bene, fine per oggi")
  {
    assert "va bene, fine per oggi" == "va bene, " + "fine" + " per oggi";
    assert !IsSpace("va bene, "[0]);
    MentionDoesNotFinish("va bene, ", " per oggi");
  }

  /** A fragment without whitespace at its ends is a keyword exactly when its
      lower-case form is one. */
  lemma {:induction false} UnpaddedKeyword(t: string)
    requires t != [] && !IsSpace(t[0]) && !IsSpace(t[|t| - 1])
    ensures IsFinishKeyword(t) <==> Lower(t) in FinishKeywords
  {
    StripUnique([], Lower(t), []);
    assert [] + Lower(t) + [] == Lower(t);
  }

  // ---------------------------------------------------------------------------
  // One turn
  // ---------------------------------------------------------------------------

  /** StartWriting, from any state, enters WRITING with an empty buffer and
      discards whatever was buffered before. */
  lemma StartWritingResets(s: Session)
    ensures Step(s, StartWritingIntent) == Outcome(Session(Writing, []), ReadyToWrite, [])
  {
  }

  /** Outside WRITING (state MENU or not set) a capture is not understood:
      it changes nothing and saves nothing, whatever the fragment says. */
  lemma CaptureIgnoredOutsideWriting(s: Session, slot: Option<string>)
    requires s.state != Writing
    ensures Step(s, CaptureNoteIntent(slot)) == Outcome(s, NotUnderstood, [])
  {
  }

  /** Outside WRITING (state MENU or not set) Finish answers that nothing is
      being written, changes nothing and saves nothing. */
  lemma FinishIgnoredOutsideWriting(s: Session)
    requires s.state != Writing
    ensures Step(s, FinishIntent) == Outcome(s, NotWriting, [])
  {
  }

  /** In WRITING, a fragment that is not a keyword is appended unchanged (not
      lower-cased or stripped; "" when the slot is empty), nothing is saved
      and the session stays in WRITING. */
  lemma CaptureAppends(s: Session, slot: Option<string>)
    requires s.state == Writing && !IsFinishKeyword(NoteText(slot))
    ensures Step(s, CaptureNoteIntent(slot)).next == Session(Writing, s.buffer + [NoteText(slot)])
    ensures Step(s, CaptureNoteIntent(slot)).reply == NoteReceived
    ensures Step(s, CaptureNoteIntent(slot)).saved == []
  {
  }

  /** In WRITING, a keyword fragment does exactly what Finish does. */
  lemma KeywordActsAsFinish(s: Session, slot: Option<string>)
    requires s.state == Writing && IsFinishKeyword(NoteText(slot))
    ensures Step(s, CaptureNoteIntent(slot)) == Step(s, FinishIntent)
  {
  }

  /** Finish in WRITING: back to MENU with an empty buffer; the joined buffer
      is saved once when it is non-empty, and nothing is saved otherwise. */
  lemma FinishCommits(s: Session)
    requires s.state == Writing
    ensures Step(s, FinishIntent).next == Session(Menu, [])
    ensures FullNote(s.buffer) != "" ==>
      Step(s, FinishIntent).saved == [FullNote(s.buffer)] && Step(s, FinishIntent).reply == NoteSaved
    ensures FullNote(s.buffer) == "" ==>
      Step(s, FinishIntent).saved == [] && Step(s, FinishIntent).reply == NothingSaid
  {
  }

  /** Finish in WRITING saves nothing exactly when the buffer is [] or [""];
      any two fragments, even two empty ones, give a note. */
  lemma {:induction false} NothingSavedIff(s: Session)
    requires s.state == Writing
    ensures Step(s, FinishIntent).saved == [] <==> s.buffer == [] || s.buffer == [""]
  {
    JoinEmptyIff(s.buffer, " ");
  }

  /** The edge cases of joining with a space: [] and [""] give "", while
      ["", ""] gives " ". */
  lemma FullNoteEdgeCases()
    ensures FullNote([]) == "" && FullNote([""]) == ""
    ensures FullNote(["", ""]) == " "
  {
    assert ["", ""][1..] == [""];
  }

  /** The guard speaks of a pending note whenever the buffer list is
      non-empty, although Finish would save nothing for the buffer [""]; that
      is the only buffer for which the two disagree. */
  lemma {:induction false} PendingWithoutText(buffer: seq<string>)
    ensures (Guard(Session(Writing, buffer), PendingNote) == PendingNote && FullNote(buffer) == "")
            <==> buffer == [""]
  {
    JoinEmptyIff(buffer, " ");
  }

  /** The guards never change the session and never save. */
  lemma GuardsChangeNothing(s: Session)
    ensures Step(s, ReadNotesIntent).next == s && Step(s, ReadNotesIntent).saved == []
    ensures Step(s, SendEmailIntent).next == s && Step(s, SendEmailIntent).saved == []
  {
  }

  /** Close in WRITING discards the buffer unsaved and returns to MENU; in any
      other state it changes nothing. */
  lemma CloseDiscards(s: Session)
    ensures Step(s, CloseIntent).saved == []
    ensures s.state == Writing ==> Step(s, CloseIntent).next == Session(Menu, [])
    ensures s.state != Writing ==> Step(s, CloseIntent).next == s
  {
  }

  /** Every turn keeps "not WRITING implies an empty buffer", and every note
      it saves is non-empty. */
  lemma StepKeepsInvariant(s: Session, intent: Intent)
    requires Inv(s)
    ensures Inv(Step(s, intent).next)
    ensures forall k :: 0 <= k < |Step(s, intent).saved| ==> Step(s, intent).saved[k] != ""
  {
  }

  // ---------------------------------------------------------------------------
  // Conversations
  // ---------------------------------------------------------------------------

  /** From a fresh session, any conversation keeps the invariant, never saves
      an empty note, and saves at most one note per turn. */
  lemma {:induction false} RunKeepsInvariant(s: Session, intents: seq<Intent>)
    requires Inv(s)
    ensures Inv(Run(s, intents).last)
    ensures forall k :: 0 <= k < |Run(s, intents).saved| ==> Run(s, intents).saved[k] != ""
    ensures |Run(s, intents).saved| <= |intents|
    decreases intents
  {
    if intents != [] {
      StepKeepsInvariant(s, intents[0]);
      RunKeepsInvariant(Step(s, intents[0]).next, intents[1..]);
    }
  }

  lemma ConcatAssoc<T>(a: seq<T>, b: seq<T>, c: seq<T>)
    ensures a + (b + c) == (a + b) + c
  {
  }

  /** Running two conversations one after the other. */
  lemma {:induction false} RunConcat(s: Session, xs: seq<Intent>, ys: seq<Intent>)
    ensures Run(s, xs + ys).last == Run(Run(s, xs).last, ys).last
    ensures Run(s, xs + ys).saved == Run(s, xs).saved + Run(Run(s, xs).last, ys).saved
    decreases xs
  {
    if xs == [] {
      assert xs + ys == ys;
    } else {
      var o := Step(s, xs[0]);
      var whole, front := Run(o.next, xs[1..] + ys), Run(o.next, xs[1..]);
      var back := Run(front.last, ys);
      assert Run(s, xs + ys).last == whole.last && Run(s, xs + ys).saved == o.saved + whole.saved by {
        assert (xs + ys)[0] == xs[0];
        assert (xs + ys)[1..] == xs[1..] + ys;
      }
      assert Run(s, xs).last == front.last && Run(s, xs).saved == o.saved + front.saved;
      assert whole.last == back.last && whole.saved == front.saved + back.saved by {
        RunConcat(o.next, xs[1..], ys);
      }
      ConcatAssoc(o.saved, front.saved, back.saved);
    }
  }

  /** While WRITING, capturing non-keyword fragments appends them in order
      and saves nothing. */
  lemma {:induction false} CapturesAppend(buffer: seq<string>, fragments: seq<string>)
    requires NoFinishKeyword(fragments)
    ensures Run(Session(Writing, buffer), Captures(fragments)).last == Session(Writing, buffer + fragments)
    ensures Run(Session(Writing, buffer), Captures(fragments)).saved == []
    decreases fragments
  {
    if fragments != [] {
      var intents := Captures(fragments);
      assert intents[1..] == Captures(fragments[1..]);
      CapturesAppend(buffer + [fragments[0]], fragments[1..]);
      assert buffer + [fragments[0]] + fragments[1..] == buffer + fragments;
    }
  }

  /** The dictation round trip: StartWriting, fragments f1..fn that are not
      keywords, then Finish or a keyword, from any session, saves exactly
      f1 + " " + ... + " " + fn (when that is not empty) and ends in MENU with
      an empty buffer. */
  lemma {:induction false} DictationRoundTrip(s: Session, fragments: seq<string>, end: Intent)
    requires NoFinishKeyword(fragments)
    requires Ends(end)
    ensures Run(s, [StartWritingIntent] + Captures(fragments) + [end]).last == Session(Menu, [])
    ensures Run(s, [StartWritingIntent] + Captures(fragments) + [end]).saved
            == if FullNote(fragments) != "" then [FullNote(fragments)] else []
  {
    var w := Session(Writing, []);
    var captures := Captures(fragments);
    RunConcat(s, [StartWritingIntent], captures + [end]);
    assert [StartWritingIntent] + captures + [end] == [StartWritingIntent] + (captures + [end]);
    assert Run(s, [StartWritingIntent]).last == w;
    assert Run(s, [StartWritingIntent]).saved == [];
    RunConcat(w, captures, [end]);
    CapturesAppend([], fragments);
    assert [] + fragments == fragments;
    var v := Session(Writing, fragments);
    assert Step(v, end) == Commit(fragments);
    assert Run(v, [end]).last == Session(Menu, []);
    assert Run(v, [end]).saved == Commit(fragments).saved;
  }

  /** Neither fragment of the shopping-list dictation is a finish keyword. */
  lemma ShoppingFragmentsAreNotKeywords()
    ensures !IsFinishKeyword("comprare il latte") && !IsFinishKeyword("e il pane")
  {
    UnpaddedKeyword("comprare il latte");
    UnpaddedKeyword("e il pane");
    assert Lower("e il pane")[0] == 'e';
  }

  /** The word "fine" on its own ends dictation. */
  lemma FineFinishes()
    ensures IsFinishKeyword("fine")
  {
    UnpaddedKeyword("fine");
    assert Lower("fine") == "fine";
  }

  lemma NoFinishKeywordPair(a: string, b: string)
    requires !IsFinishKeyword(a) && !IsFinishKeyword(b)
    ensures NoFinishKeyword([a, b])
  {
  }

  lemma CaptureEnds(t: string)
    requires IsFinishKeyword(t)
    ensures Ends(CaptureNoteIntent(Some(t)))
  {
  }

  lemma ShoppingNoteText()
    ensures "comprare il latte" + " " + "e il pane" == "comprare il latte e il pane"
  {
  }

  /** Dictating "comprare il latte", then "e il pane", then saying "fine"
      stores exactly "comprare il latte e il pane". */
  lemma ShoppingListScenario()
    ensures Run(Initial, [StartWritingIntent,
                          CaptureNoteIntent(Some("comprare il latte")),
                          CaptureNoteIntent(Some("e il pane")),
                          CaptureNoteIntent(Some("fine"))]).saved
            == ["comprare il latte e il pane"]
  {
    var fragments := ["comprare il latte", "e il pane"];
    var end := CaptureNoteIntent(Some("fine"));
    assert FullNote(fragments) == "comprare il latte e il pane" by {
      JoinPair("comprare il latte", "e il pane", " ");
      ShoppingNoteText();
    }
    assert [StartWritingIntent,
            CaptureNoteIntent(Some("comprare il latte")),
            CaptureNoteIntent(Some("e il pane")),
            end]
           == [StartWritingIntent] + Captures(fragments) + [end];
    ShoppingFragmentsAreNotKeywords();
    NoFinishKeywordPair("comprare il latte", "e il pane");
    FineFinishes();
    CaptureEnds("fine");
    DictationRoundTrip(Initial, fragments, end);
  }
}
