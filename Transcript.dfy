/** Rendering stored notes for the read-back and e-mail flows. Each note
    becomes one entry, numbered from 1 in the order the store returned the
    notes, holding the note's date (or its raw timestamp when the date
    cannot be parsed) and its content. Spoken entries are joined by ". ",
    mailed entries by a line break. */
module Transcript {
  import opened Wrappers
  import opened Text

  /** A stored note as the handlers unpack it: content and timestamp text. */
  datatype StoredNote = StoredNote(content: string, timestamp: string)

  /** The two entry layouts: read back aloud, or one line of the e-mail. */
  datatype Layout = Spoken | Mailed

  /** Parses a stored timestamp (year-month-day hour:minute:second) and
      formats it with the configured date pattern; `None` when the timestamp
      does not parse. */
  type DateFormatter = string -> Option<string>

  /** The date an entry shows: the formatted date, or the raw timestamp
      unchanged when it does not parse. */
  function DisplayDate(format: DateFormatter, timestamp: string): string {
    match format(timestamp)
    case Some(date) => date
    case None => timestamp
  }

  /** The text before the date in an entry numbered `num`. */
  function Lead(layout: Layout, num: nat): string {
    match layout
    case Spoken => "Nota " + NatToString(num) + " del "
    case Mailed => NatToString(num) + ". ["
  }

  /** The text between the date and the content. */
  function Middle(layout: Layout): string {
    match layout
    case Spoken => ": "
    case Mailed => "] "
  }

  /** One entry: "Nota {num} del {date}: {content}" when spoken,
      "{num}. [{date}] {content}" when mailed. */
  function Entry(layout: Layout, num: nat, date: string, content: string): string {
    Lead(layout, num) + date + Middle(layout) + content
  }

  /** The entry for the note at 0-based position `k`. */
  function EntryAt(layout: Layout, notes: seq<StoredNote>, format: DateFormatter, k: nat): string
    requires k < |notes|
  {
    Entry(layout, k + 1, DisplayDate(format, notes[k].timestamp), notes[k].content)
  }

  /** The entries for all notes, in order. */
  function Entries(layout: Layout, notes: seq<StoredNote>, format: DateFormatter): seq<string> {
    seq(|notes|, k requires 0 <= k < |notes| => EntryAt(layout, notes, format, k))
  }

  /** The read-back text: the prefix, the spoken entries joined by ". ",
      then ". " and the menu prompt. */
  function ReadBackText(notes: seq<StoredNote>, format: DateFormatter, prefix: string, menu: string): string {
    prefix + Join(Entries(Spoken, notes, format), ". ") + ". " + menu
  }

  /** The e-mail listing: the mailed entries, one per line. */
  function MailText(notes: seq<StoredNote>, format: DateFormatter): string {
    Join(Entries(Mailed, notes, format), "\n")
  }

  /** The formatting loop: walks the notes in order, numbering from 1, and
      appends one entry per note. */
  method FormatEntries(layout: Layout, notes: seq<StoredNote>, format: DateFormatter)
    returns (entries: seq<string>)
    ensures entries == Entries(layout, notes, format)
  {
    entries := [];
    var i := 0;
    while i < |notes|
      invariant 0 <= i <= |notes|
      invariant entries == Entries(layout, notes[..i], format)
    {
      var date;
      match format(notes[i].timestamp) {
        case Some(formatted) => date := formatted;
        case None => date := notes[i].timestamp;
      }
      EntriesAppend(layout, notes[..i], notes[i], format);
      assert notes[..i + 1] == notes[..i] + [notes[i]];
      entries := entries + [Entry(layout, i + 1, date, notes[i].content)];
      i := i + 1;
    }
    assert notes[..i] == notes;
  }

  // ---------------------------------------------------------------------------
  // Properties of the rendering
  // ---------------------------------------------------------------------------

  /** One more note adds one more entry at the end, numbered one past the
      others; the earlier entries are unchanged. */
  lemma EntriesAppend(layout: Layout, notes: seq<StoredNote>, n: StoredNote, format: DateFormatter)
    ensures Entries(layout, notes + [n], format)
            == Entries(layout, notes, format) + [Entry(layout, |notes| + 1, DisplayDate(format, n.timestamp), n.content)]
  {
    var xs := notes + [n];
    var lhs := Entries(layout, xs, format);
    var rhs := Entries(layout, notes, format) + [Entry(layout, |notes| + 1, DisplayDate(format, n.timestamp), n.content)];
    assert |lhs| == |rhs|;
    assert forall k :: 0 <= k < |lhs| ==> lhs[k] == rhs[k] by {
      forall k | 0 <= k < |lhs|
        ensures lhs[k] == rhs[k]
      {
        if k < |notes| {
          assert xs[k] == notes[k];
        } else {
          assert xs[k] == n;
        }
      }
    }
  }

  /** Every entry shows its note's date as formatted when the timestamp
      parses, and the raw timestamp otherwise; rendering never fails. */
  lemma EntryShowsDate(layout: Layout, notes: seq<StoredNote>, format: DateFormatter, k: nat)
    requires k < |notes|
    ensures format(notes[k].timestamp).Some? ==>
      Entries(layout, notes, format)[k]
        == Lead(layout, k + 1) + format(notes[k].timestamp).value + Middle(layout) + notes[k].content
    ensures format(notes[k].timestamp).None? ==>
      Entries(layout, notes, format)[k]
        == Lead(layout, k + 1) + notes[k].timestamp + Middle(layout) + notes[k].content
  {
  }

  /** Entry `k` of a mailed listing starts with the decimal number k + 1
      followed by ". ", so the entries are numbered 1..n. */
  lemma {:induction false} MailedEntryNumber(notes: seq<StoredNote>, format: DateFormatter, k: nat)
    requires k < |notes|
    ensures var e, d := Entries(Mailed, notes, format)[k], NatToString(k + 1);
            && |d| < |e| && e[..|d|] == d && e[|d|] == '.'
            && DecimalValue(e[..|d|]) == k + 1
  {
    var e, d := Entries(Mailed, notes, format)[k], NatToString(k + 1);
    assert e == d + (". [" + DisplayDate(format, notes[k].timestamp) + "] " + notes[k].content);
    assert e[..|d|] == d;
    DecimalRoundTrip(k + 1);
  }

  predicate NoLineBreak(s: string) {
    '\n' !in s
  }

  lemma NoLineBreakConcat(a: string, b: string)
    requires NoLineBreak(a) && NoLineBreak(b)
    ensures NoLineBreak(a + b)
  {
  }

  /** A mailed entry holds no line break when the date shown and the
      content hold none. */
  lemma {:induction false} MailedEntryOneLine(num: nat, date: string, content: string)
    requires NoLineBreak(date) && NoLineBreak(content)
    ensures NoLineBreak(Entry(Mailed, num, date, content))
  {
    var d := NatToString(num);
    assert NoLineBreak(d) by {
      forall k | 0 <= k < |d| ensures d[k] != '\n' {
        assert IsDigit(d[k]);
      }
    }
    NoLineBreakConcat(d, ". [");
    NoLineBreakConcat(d + ". [", date);
    NoLineBreakConcat(d + ". [" + date, "] ");
    NoLineBreakConcat(d + ". [" + date + "] ", content);
  }

  /** When no content and no shown date holds a line break, splitting the
      e-mail listing at line breaks gives back exactly the entries: one line
      per note, in order. */
  lemma {:induction false} MailLinesAreEntries(notes: seq<StoredNote>, format: DateFormatter)
    requires notes != []
    requires forall k :: 0 <= k < |notes| ==>
      NoLineBreak(notes[k].content) && NoLineBreak(DisplayDate(format, notes[k].timestamp))
    ensures Split(MailText(notes, format), '\n') == Entries(Mailed, notes, format)
    ensures |Split(MailText(notes, format), '\n')| == |notes|
  {
    var entries := Entries(Mailed, notes, format);
    forall k | 0 <= k < |entries| ensures '\n' !in entries[k] {
      MailedEntryOneLine(k + 1, DisplayDate(format, notes[k].timestamp), notes[k].content);
    }
    SplitJoin(entries, '\n');
  }

  /** The read-back text for one more note: the new note is spoken last,
      numbered one past the others, before the closing ". " and the menu. */
  lemma ReadBackAppend(notes: seq<StoredNote>, n: StoredNote, format: DateFormatter, prefix: string, menu: string)
    requires notes != []
    ensures ReadBackText(notes + [n], format, prefix, menu)
            == prefix + Join(Entries(Spoken, notes, format), ". ") + ". "
               + Entry(Spoken, |notes| + 1, DisplayDate(format, n.timestamp), n.content) + ". " + menu
  {
    var before := Entries(Spoken, notes, format);
    var last := Entry(Spoken, |notes| + 1, DisplayDate(format, n.timestamp), n.content);
    assert Entries(Spoken, notes + [n], format) == before + [last] by {
      EntriesAppend(Spoken, notes, n, format);
    }
    assert Join(before + [last], ". ") == Join(before, ". ") + ". " + last by {
      JoinAppend(before, last, ". ");
    }
    ReadBackRegroup(prefix, Join(before, ". "), last, menu);
  }

  lemma ReadBackRegroup(prefix: string, spoken: string, last: string, menu: string)
    ensures prefix + (spoken + ". " + last) + ". " + menu == prefix + spoken + ". " + last + ". " + menu
  {
  }

  /** A single note is read back as prefix, its entry, ". " and the menu. */
  lemma ReadBackSingle(n: StoredNote, format: DateFormatter, prefix: string, menu: string)
    ensures ReadBackText([n], format, prefix, menu)
            == prefix + Entry(Spoken, 1, DisplayDate(format, n.timestamp), n.content) + ". " + menu
  {
  }
}
