/** The text shown by tkinter_error(): the window title and the message
    normalised for display in a left-justified label. The dialog itself is
    not modelled. The same logic appears in pyslipqt/tkinter_error.py and
    pySlipQt/examples/tkinter_error.py. */
module ErrorDialog {
  import opened PyText

  /** What every newline of the displayed message turns into. */
  const NewlinePad := "   \n   "

  /** The window title: the caller's title, or 'ERROR' when none is given. */
  function Title(title: Option<string>): string
  {
    match title
    case None => "ERROR"
    case Some(s) => s
  }

  /** The message as shown: stripped, framed by newlines, carriage returns
      removed, every newline padded with three spaces on each side. */
  function FormatMessage(msg: string): (r: string)
  {
    ReplaceChar(ReplaceChar("\n" + Strip(msg) + "\n", '\r', ""), '\n', NewlinePad)
  }

  /** What tkinter_error() puts on the screen: (title, label text). The
      title defaults to 'ERROR'; the label text holds no carriage return,
      is the stripped message between two padded newlines, has three
      spaces on each side of every newline and two newlines more than the
      stripped message. */
  function Dialog(msg: string, title: Option<string>): (r: (string, string))
    ensures title.None? ==> r.0 == "ERROR"
    ensures title.Some? ==> r.0 == title.value
    ensures '\r' !in r.1
    ensures r.1 == NewlinePad + ReplaceChar(ReplaceChar(Strip(msg), '\r', ""), '\n', NewlinePad) + NewlinePad
    ensures NewlinesPadded(r.1)
    ensures Count(r.1, '\n') == Count(Strip(msg), '\n') + 2
  {
    NoCarriageReturn(msg);
    Framed(msg);
    MessageNewlinesPadded(msg);
    NewlineCount(msg);
    (Title(title), FormatMessage(msg))
  }

  /** The displayed message holds no carriage return. */
  lemma {:induction false} NoCarriageReturn(msg: string)
    ensures '\r' !in FormatMessage(msg)
  {
    var s := ReplaceChar("\n" + Strip(msg) + "\n", '\r', "");
    ReplaceCharRemoves("\n" + Strip(msg) + "\n", '\r', "");
    ReplaceCharAbsent(NewlinePad, '\r', "");
    PaddedHasNoCR(s);
  }

  lemma {:induction false} PaddedHasNoCR(s: string)
    requires '\r' !in s
    ensures '\r' !in ReplaceChar(s, '\n', NewlinePad)
  {
    if s != [] {
      PaddedHasNoCR(s[1..]);
    }
  }

  /** The message is the stripped text, cleaned and padded, between two
      padded newlines. */
  lemma {:induction false} Framed(msg: string)
    ensures FormatMessage(msg) ==
      NewlinePad + ReplaceChar(ReplaceChar(Strip(msg), '\r', ""), '\n', NewlinePad) + NewlinePad
  {
    var t := Strip(msg);
    ReplaceCharAppend("\n" + t, "\n", '\r', "");
    ReplaceCharAppend("\n", t, '\r', "");
    var u := ReplaceChar(t, '\r', "");
    assert ReplaceChar("\n", '\r', "") == "\n";
    assert ReplaceChar("\n" + t + "\n", '\r', "") == "\n" + u + "\n";
    ReplaceCharAppend("\n" + u, "\n", '\n', NewlinePad);
    ReplaceCharAppend("\n", u, '\n', NewlinePad);
    assert ReplaceChar("\n", '\n', NewlinePad) == NewlinePad;
  }

  lemma PadHasOneNewline()
    ensures Count(NewlinePad, '\n') == 1 && Count("\n", '\n') == 1 && Count("", '\n') == 0
  {
    assert NewlinePad == [' ', ' ', ' ', '\n', ' ', ' ', ' '];
  }

  /** Two more newlines than the stripped message. */
  lemma {:induction false} NewlineCount(msg: string)
    ensures Count(FormatMessage(msg), '\n') == Count(Strip(msg), '\n') + 2
  {
    PadHasOneNewline();
    var t := Strip(msg);
    var framed := "\n" + t + "\n";
    CountAppend("\n" + t, "\n", '\n');
    CountAppend("\n", t, '\n');
    assert Count(framed, '\n') == Count(t, '\n') + 2;
    ReplaceCharKeepsCount(framed, '\r', "", '\n');
    var s := ReplaceChar(framed, '\r', "");
    assert Count(s, '\n') == Count(framed, '\n');
    ReplaceCharOneForOne(s, '\n', NewlinePad);
  }

  /** Position i of r has three spaces on each side. */
  predicate PaddedAt(r: string, i: int) {
    3 <= i && i + 3 < |r| && r[i - 3..i] == "   " && r[i + 1..i + 4] == "   "
  }

  /** Every newline of r has three spaces on each side. */
  predicate NewlinesPadded(r: string) {
    forall i :: 0 <= i < |r| && r[i] == '\n' ==> PaddedAt(r, i)
  }

  /** Every newline of the displayed message has three spaces on each side. */
  lemma {:induction false} MessageNewlinesPadded(msg: string)
    ensures NewlinesPadded(FormatMessage(msg))
  {
    PadEveryNewline(ReplaceChar("\n" + Strip(msg) + "\n", '\r', ""));
  }

  /** Padding around a position survives putting text in front. */
  lemma PaddedShift(head: string, rest: string, j: int)
    requires PaddedAt(rest, j)
    ensures PaddedAt(head + rest, |head| + j)
  {
    var r := head + rest;
    var i := |head| + j;
    assert r[i - 3..i] == rest[j - 3..j];
    assert r[i + 1..i + 4] == rest[j + 1..j + 4];
  }

  /** The newline of a leading pad is padded. */
  lemma PadLeads(rest: string)
    ensures PaddedAt(NewlinePad + rest, 3)
  {
    var r := NewlinePad + rest;
    assert r[0..3] == NewlinePad[0..3];
    assert r[4..7] == NewlinePad[4..7];
  }

  /** A padded newline or a character other than a newline, put in front
      of a text whose newlines are padded, keeps every newline padded. */
  lemma PadPrepend(head: string, rest: string)
    requires head == NewlinePad || (|head| == 1 && head[0] != '\n')
    requires NewlinesPadded(rest)
    ensures NewlinesPadded(head + rest)
  {
    var r := head + rest;
    forall i | 0 <= i < |r| && r[i] == '\n'
      ensures PaddedAt(r, i)
    {
      if i < |head| {
        assert head == NewlinePad && i == 3;
        PadLeads(rest);
      } else {
        assert rest[i - |head|] == r[i];
        PaddedShift(head, rest, i - |head|);
      }
    }
  }

  lemma {:induction false} PadEveryNewline(s: string)
    ensures NewlinesPadded(ReplaceChar(s, '\n', NewlinePad))
  {
    if s != [] {
      PadEveryNewline(s[1..]);
      var head := if s[0] == '\n' then NewlinePad else [s[0]];
      PadPrepend(head, ReplaceChar(s[1..], '\n', NewlinePad));
    }
  }
}
