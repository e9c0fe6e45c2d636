/** Replies on their way out through the output buffer. */
module Replies {
  import opened Ctype
  import opened Framing
  import opened IoBuffers
  import opened PortCodec

  /** The complete lines of a text, each with its end-of-line characters. */
  function EolLines(s: string): seq<string>
    decreases |s|
  {
    if Eol(s) == |s| then [] else [LineText(s, true)] + EolLines(s[Eol(s) + 1..])
  }

  function Concat(lines: seq<string>): string {
    if lines == [] then "" else lines[0] + Concat(lines[1..])
  }

  lemma {:induction false} ConcatAppend(lines: seq<string>, line: string)
    ensures Concat(lines + [line]) == Concat(lines) + line
  {
    if lines == [] {
      assert [] + [line] == [line] && line + "" == line;
    } else {
      ConcatAppend(lines[1..], line);
      assert (lines + [line])[1..] == lines[1..] + [line];
    }
  }

  lemma ConcatFront(line: string, lines: seq<string>, rest: string)
    ensures Concat([line] + lines) + rest == line + (Concat(lines) + rest)
  {
    assert ([line] + lines)[1..] == lines;
  }

  lemma EolLinesStep(s: string)
    requires Eol(s) < |s|
    ensures var more := s[Eol(s) + 1..];
            && EolLines(s) == [LineText(s, true)] + EolLines(more)
            && Rest(s) == Rest(more) && s == LineText(s, true) + more
  {
  }

  /** Nothing is lost between the lines. */
  lemma {:induction false} LinesConserve(s: string)
    ensures Concat(EolLines(s)) + Rest(s) == s
    decreases |s|
  {
    if Eol(s) == |s| {
      NoEol(s);
    } else {
      var more := s[Eol(s) + 1..];
      EolLinesStep(s);
      LinesConserve(more);
      ConcatFront(LineText(s, true), EolLines(more), Rest(more));
    }
  }

  lemma NoEol(s: string)
    requires Eol(s) == |s|
    ensures EolLines(s) == [] && Rest(s) == s
  {
  }

  /** A reply as text. */
  function Response(code: nat, msg: string): string {
    Decimal(code) + " " + msg + "\r\n"
  }

  /** Digits worth the code are in front of the text's first space, and behind that are the message and a line end. */
  ghost predicate ReadsAs(text: string, code: nat, msg: string) {
    exists k: nat :: CutAt(text, k, code, msg)
  }

  predicate CutAt(text: string, k: nat, code: nat, msg: string) {
    && 0 < k < |text| && text[k] == ' ' && (forall i :: 0 <= i < k ==> '0' <= text[i] <= '9')
    && AllDigits(text[..k]) && Value(text[..k]) == code && text[k + 1..] == msg + "\r\n"
    && (100 <= code < 1000 ==> ThreeDigits(text[..k], code))
  }

  /** The usual codes are written with three digits. */
  predicate ThreeDigits(digits: string, code: nat)
    requires 100 <= code < 1000
  {
    && |digits| == 3 && digits[0] == '0' + (code / 100) as char
    && digits[1] == '0' + (code / 10 % 10) as char && digits[2] == '0' + (code % 10) as char
  }

  lemma DecimalThree(code: nat)
    requires 100 <= code < 1000
    ensures ThreeDigits(Decimal(code), code)
  {
    var tens := code / 10;
    assert tens / 10 == code / 100 && tens % 10 == code / 10 % 10;
    assert Decimal(tens / 10) == [DigitChar(tens / 10)];
    assert Decimal(tens) == Decimal(tens / 10) + [DigitChar(tens % 10)];
    assert Decimal(code) == Decimal(tens) + [DigitChar(code % 10)];
  }

  lemma ResponseReads(code: nat, msg: string)
    ensures ReadsAs(Response(code, msg), code, msg)
  {
    var number, text := Decimal(code), Response(code, msg);
    DecimalValue(code);
    if 100 <= code < 1000 {
      DecimalThree(code);
    }
    assert text[..|number|] == number && text[|number| + 1..] == msg + "\r\n";
    assert forall i :: 0 <= i < |number| ==> text[i] == number[i];
    assert CutAt(text, |number|, code, msg);
  }

  /** Appends a reply; one that does not fit is dropped whole. */
  method FtpResponse(output: IoBuffer, code: nat, msg: string) returns (ghost text: string)
    requires output.Valid()
    modifies output`head, output.buffer
    ensures output.Valid() && text == Response(code, msg) && ReadsAs(text, code, msg)
    ensures output.Contents() == old(output.Contents()) +
            if |old(output.Contents())| + |text| <= output.size then text else ""
  {
    text := Response(code, msg);
    ResponseReads(code, msg);
    var ok := output.Append(Response(code, msg));
  }

  /** Offers a text to the socket, which may take less of it than all, or fail. */
  method Send(text: string) returns (nwritten: int, taken: string)
    ensures TookFront(text, nwritten, taken)
  {
    var count: int := *;
    if count < 0 {
      return -1, "";
    }
    nwritten := if count <= |text| then count else |text|;
    taken := text[..nwritten];
  }

  /** What was taken of a text: so many bytes from the front, or nothing at all when sending failed. */
  predicate TookFront(text: string, nwritten: int, taken: string) {
    taken <= text && |taken| == if nwritten < 0 then 0 else nwritten
  }

  /** Sends the C string in the line buffer, in one piece. */
  method Writeln(line: array<char>, length: nat, ghost text: string) returns (nwritten: int, taken: string)
    requires length < line.Length && line[..length] == text && line[length] == NUL
    ensures TookFront(CString(text), nwritten, taken)
  {
    var len := StringLength(line, length, text);
    if len == 0 {
      return 0, "";
    }
    nwritten, taken := Send(line[..len]);
  }

  /** Counts up to the NUL. */
  method StringLength(line: array<char>, length: nat, ghost text: string) returns (len: nat)
    requires length < line.Length && line[..length] == text && line[length] == NUL
    ensures len < line.Length && line[..len] == CString(text)
  {
    ghost var s := CString(text);
    len := 0;
    while line[len] != NUL
      invariant len <= |s| && line[..len] == s[..len]
      decreases |s| - len
    {
      NextChar(line, length, text, len);
      len := len + 1;
    }
    NextChar(line, length, text, len);
  }

  lemma NextChar(line: array<char>, length: nat, text: string, i: nat)
    requires length < line.Length && line[..length] == text && line[length] == NUL && i <= |CString(text)|
    ensures line[i] == NUL <==> i == |CString(text)|
    ensures i < |CString(text)| ==> line[i] == CString(text)[i]
  {
    var s := CString(text);
    if i < |s| {
      assert line[..length][i] == text[i] == s[i] && s[i] in s;
    } else if |s| < |text| {
      assert line[..length][i] == text[i];
    }
  }

  /** What is sent, with everything before it, and what is left, is what there was. */
  ghost predicate Draining(was: string, lines: seq<string>, contents: string) {
    lines + EolLines(contents) == EolLines(was) && Rest(contents) == Rest(was)
  }

  lemma DrainStep(was: string, lines: seq<string>, contents: string, line: string, more: string)
    requires Draining(was, lines, contents) && Eol(contents) < |contents|
    requires line == LineText(contents, true) && more == contents[Eol(contents) + 1..]
    ensures Draining(was, lines + [line], more)
  {
    EolLinesStep(contents);
    Associate(lines, [line], EolLines(more));
  }

  lemma DrainEnd(was: string, lines: seq<string>, contents: string)
    requires Draining(was, lines, contents) && Eol(contents) == |contents|
    ensures lines == EolLines(was) && contents == Rest(was) && Concat(lines) + contents == was
  {
    NoEol(contents);
    assert lines + [] == lines;
    LinesConserve(was);
  }

  /** A single line that fills the buffer to the brim does not fit the line buffer with its NUL. */
  predicate BrimLine(s: string, size: nat) {
    |s| == size && Eol(s) + 1 == size
  }

  /** What was taken of each text is a front of it. */
  predicate Fronts(taken: seq<string>, texts: seq<string>) {
    |taken| == |texts| && forall i :: 0 <= i < |taken| ==> taken[i] <= texts[i]
  }

  /** The lines as C strings, which is how they are sent. */
  function CStrings(lines: seq<string>): (r: seq<string>)
    ensures |r| == |lines| && forall i :: 0 <= i < |r| ==> r[i] == CString(lines[i])
  {
    seq(|lines|, i requires 0 <= i < |lines| => CString(lines[i]))
  }

  lemma FrontsStep(taken: seq<string>, lines: seq<string>, front: string, line: string)
    requires Fronts(taken, CStrings(lines)) && front <= CString(line)
    ensures Fronts(taken + [front], CStrings(lines + [line]))
  {
  }

  /** The lines sent so far, and what the buffer still holds, are what there was; past the first line there is room. */
  ghost predicate Progress(was: string, contents: string, size: nat, sent: seq<string>, lines: seq<string>) {
    && Draining(was, lines, contents) && Fronts(sent, CStrings(lines))
    && (contents == was || (|contents| < size && !BrimLine(was, size)))
  }

  lemma ProgressStep(was: string, contents: string, size: nat, sent: seq<string>, lines: seq<string>, front: string,
                     line: string, more: string)
    requires Progress(was, contents, size, sent, lines) && Eol(contents) < |contents| <= size
    requires !BrimLine(contents, size) && front <= CString(line)
    requires line == LineText(contents, true) && more == contents[Eol(contents) + 1..]
    ensures Progress(was, more, size, sent + [front], lines + [line])
  {
    DrainStep(was, lines, contents, line, more);
    FrontsStep(sent, lines, front, line);
  }

  /** Takes the next line, if there is one, and sends it; how much of it went out is not looked at. */
  method SendLine(output: IoBuffer, sent: seq<string>, ghost was: string, ghost lines: seq<string>)
    returns (r: NextLine, sent': seq<string>, ghost lines': seq<string>)
    requires output.Valid() && Progress(was, output.Contents(), output.size, sent, lines)
    modifies output`head, output.buffer, output.line
    ensures r.Overrun? ==> BrimLine(was, output.size)
    ensures r.Line? ==>
      output.Valid() && output.head < old(output.head) && Progress(was, output.Contents(), output.size, sent', lines')
    ensures r.NoLine? ==> output.Valid() && Drained(was, output.Contents(), output.size, sent', lines')
  {
    ghost var contents := output.Contents();
    sent', lines' := sent, lines;
    r := output.Next(true);
    if r.Overrun? {
      return;
    }
    if r.NoLine? {
      DrainEnd(was, lines, contents);
      return;
    }
    ghost var line := LineText(contents, true);
    var nwritten, taken := Writeln(output.line, r.length, line);
    ProgressStep(was, contents, output.size, sent, lines, taken, line, output.Contents());
    sent', lines' := sent + [taken], lines + [line];
  }

  /**
   * All complete lines were offered, in order and once, and the unfinished rest is kept; nothing is lost between
   * them in the buffer. The socket has a front of each line.
   */
  ghost predicate Drained(was: string, contents: string, size: nat, sent: seq<string>, lines: seq<string>) {
    && !BrimLine(was, size) && Fronts(sent, CStrings(lines))
    && lines == EolLines(was) && contents == Rest(was) && Concat(lines) + contents == was
  }

  /** Sends every complete line of the output buffer; what the socket took of each is in `sent`. */
  method HandleOutput(output: IoBuffer) returns (sent: seq<string>, overrun: bool, ghost lines: seq<string>)
    requires output.Valid()
    modifies output`head, output.buffer, output.line
    ensures overrun <==> BrimLine(old(output.Contents()), output.size)
    ensures !overrun ==> output.Valid() && Drained(old(output.Contents()), output.Contents(), output.size, sent, lines)
  {
    sent, lines, overrun := [], [], false;
    ghost var was := output.Contents();
    if output.head == 0 {
      DrainEnd("", [], "");
      return;
    }
    var r := Line(0);
    while r.Line?
      invariant r.Line? ==> output.Valid() && Progress(was, output.Contents(), output.size, sent, lines)
      invariant r.NoLine? ==> output.Valid() && Drained(was, output.Contents(), output.size, sent, lines)
      invariant r.Overrun? ==> BrimLine(was, output.size)
      decreases r.Line?, output.head
    {
      r, sent, lines := SendLine(output, sent, was, lines);
    }
    overrun := r.Overrun?;
  }

  /** What fronts make up falls short of the whole texts, unless every one of them is whole. */
  lemma {:induction false} FrontsWhole(taken: seq<string>, texts: seq<string>)
    requires Fronts(taken, texts)
    ensures |Concat(taken)| <= |Concat(texts)|
    ensures |Concat(taken)| == |Concat(texts)| <==> taken == texts
  {
    if taken != [] {
      FrontsWhole(taken[1..], texts[1..]);
      assert taken == [taken[0]] + taken[1..] && texts == [texts[0]] + texts[1..];
      assert |taken[0]| == |texts[0]| <==> taken[0] == texts[0];
    }
  }

  // ---------- Which replies reach the socket ----------

  datatype Reply = Reply(code: nat, msg: string)

  /** A message on one line, as a C string. */
  predicate OneLine(msg: string) {
    '\n' !in msg && NUL !in msg
  }

  function Texts(replies: seq<Reply>): (r: seq<string>)
    ensures |r| == |replies| && forall i :: 0 <= i < |r| ==> r[i] == Response(replies[i].code, replies[i].msg)
  {
    if replies == [] then []
    else
      var last := replies[|replies| - 1];
      Texts(replies[..|replies| - 1]) + [Response(last.code, last.msg)]
  }

  /** Each text reads as its reply. */
  ghost predicate AllRead(texts: seq<string>, replies: seq<Reply>) {
    |texts| == |replies| && forall i :: 0 <= i < |texts| ==> ReadsAs(texts[i], replies[i].code, replies[i].msg)
  }

  lemma TextsRead(replies: seq<Reply>)
    ensures AllRead(Texts(replies), replies)
  {
    forall i | 0 <= i < |replies|
      ensures ReadsAs(Texts(replies)[i], replies[i].code, replies[i].msg)
    {
      ResponseReads(replies[i].code, replies[i].msg);
    }
  }

  /** The texts that are taken, in order, where there is room for so many bytes; the others are dropped. */
  function Fitting(room: nat, texts: seq<string>): (r: seq<string>)
    ensures |r| <= |texts|
  {
    if texts == [] then []
    else
      var before, last := Fitting(room, texts[..|texts| - 1]), texts[|texts| - 1];
      if |Concat(before)| + |last| <= room then before + [last] else before
  }

  /** None is dropped exactly when they fit all together. */
  lemma {:induction false} FittingAll(room: nat, texts: seq<string>)
    ensures Fitting(room, texts) == texts <==> |Concat(texts)| <= room
  {
    if texts != [] {
      var init, last := texts[..|texts| - 1], texts[|texts| - 1];
      FittingAll(room, init);
      ConcatAppend(init, last);
      assert texts == init + [last];
      if |Fitting(room, texts)| == |texts| {
        assert Fitting(room, texts)[..|init|] == Fitting(room, init);
      }
    }
  }

  lemma {:induction false} FittingAreTexts(room: nat, texts: seq<string>)
    ensures forall t :: t in Fitting(room, texts) ==> t in texts
  {
    if texts != [] {
      FittingAreTexts(room, texts[..|texts| - 1]);
    }
  }

  /** A complete line, as a C string. */
  predicate IsLine(t: string) {
    t != "" && t[|t| - 1] == '\n' && '\n' !in t[..|t| - 1] && NUL !in t
  }

  lemma ResponseIsLine(code: nat, msg: string)
    requires OneLine(msg)
    ensures IsLine(Response(code, msg))
  {
    var number := Decimal(code);
    assert forall i :: 0 <= i < |number| ==> IsDigit(number[i]);
    assert Response(code, msg)[..|Response(code, msg)| - 1] == number + " " + msg + "\r";
  }

  /** Lines put together are those very lines, and nothing is left behind the last. */
  lemma {:induction false} LinesOfConcat(texts: seq<string>)
    requires forall t :: t in texts ==> IsLine(t)
    ensures EolLines(Concat(texts)) == texts && Rest(Concat(texts)) == ""
  {
    if texts == [] {
      NoEol("");
    } else {
      var first, more, s := texts[0], Concat(texts[1..]), Concat(texts);
      assert first in texts && s == first + more;
      assert s[..|first| - 1] == first[..|first| - 1];
      EolIs(s, |first| - 1);
      EolLinesStep(s);
      assert s[..|first|] == first && s[|first|..] == more;
      LinesOfConcat(texts[1..]);
    }
  }

  lemma {:induction false} CStringWhole(s: string)
    requires NUL !in s
    ensures CString(s) == s
  {
    if s != "" {
      assert s[0] in s;
      CStringWhole(s[1..]);
    }
  }

  lemma FittingNext(room: nat, texts: seq<string>, text: string)
    ensures var before := Fitting(room, texts);
            Concat(Fitting(room, texts + [text])) ==
            Concat(before) + if |Concat(before)| + |text| <= room then text else ""
  {
    assert (texts + [text])[..|texts|] == texts;
    ConcatAppend(Fitting(room, texts), text);
  }

  lemma TextsNext(given: seq<string>, texts: seq<string>, i: nat)
    requires i < |texts|
    ensures given + texts[..i + 1] == given + texts[..i] + [texts[i]]
  {
  }

  /** Replies given one after the other, behind those that have been `given` before. */
  method RespondAll(output: IoBuffer, replies: seq<Reply>, ghost given: seq<string>)
    requires output.Valid() && output.Contents() == Concat(Fitting(output.size, given))
    modifies output`head, output.buffer
    ensures output.Valid() && output.Contents() == Concat(Fitting(output.size, given + Texts(replies)))
  {
    ghost var texts := Texts(replies);
    assert given + texts[..0] == given;
    for i := 0 to |replies|
      invariant output.Valid() && output.Contents() == Concat(Fitting(output.size, given + texts[..i]))
    {
      TextsNext(given, texts, i);
      FittingNext(output.size, given + texts[..i], texts[i]);
      var text := FtpResponse(output, replies[i].code, replies[i].msg);
    }
    assert texts[..|replies|] == texts;
  }

  /** Of the lines that were in the buffer, the socket has a front each, and nothing is left to send. */
  lemma SentAreFronts(was: string, contents: string, size: nat, sent: seq<string>, lines: seq<string>,
                      texts: seq<string>)
    requires Drained(was, contents, size, sent, lines) && was == Concat(texts) && forall t :: t in texts ==> IsLine(t)
    ensures Fronts(sent, texts) && contents == ""
  {
    LinesOfConcat(texts);
    forall i | 0 <= i < |sent|
      ensures sent[i] <= texts[i]
    {
      assert texts[i] in texts;
      CStringWhole(texts[i]);
    }
  }

  /** What the socket has of these texts: a front of each that fitted, and all of them exactly when none is lost. */
  ghost predicate Reached(sent: seq<string>, texts: seq<string>, size: nat) {
    && Fronts(sent, Fitting(size, texts))
    && (Concat(sent) == Concat(texts) <==> |Concat(texts)| <= size && sent == texts)
  }

  lemma ReachedBy(sent: seq<string>, texts: seq<string>, size: nat)
    requires Fronts(sent, Fitting(size, texts))
    ensures Reached(sent, texts, size)
  {
    FittingAll(size, texts);
    FrontsWhole(sent, Fitting(size, texts));
    FittingShorter(size, texts);
  }

  /** Dropping a line leaves less. */
  lemma {:induction false} FittingShorter(room: nat, texts: seq<string>)
    ensures |Concat(Fitting(room, texts))| <= |Concat(texts)|
    ensures |Concat(texts)| > room ==> |Concat(Fitting(room, texts))| <= room
  {
    if texts != [] {
      var init, last := texts[..|texts| - 1], texts[|texts| - 1];
      FittingShorter(room, init);
      assert texts == init + [last];
      ConcatAppend(init, last);
      ConcatAppend(Fitting(room, init), last);
    }
  }

  /** What fills the buffer to the brim is a single line. */
  lemma BrimIsOneLine(texts: seq<string>, size: nat)
    requires (forall t :: t in texts ==> IsLine(t)) && BrimLine(Concat(texts), size)
    ensures |texts| == 1 && |texts[0]| == size
  {
    var s := Concat(texts);
    LinesOfConcat(texts);
    EolLinesStep(s);
    NoEol("");
    assert s[Eol(s) + 1..] == "" && s[..|s|] == s;
  }

  lemma GivenAreLines(given: seq<string>, replies: seq<Reply>, room: nat)
    requires (forall t :: t in given ==> IsLine(t)) && forall r :: r in replies ==> OneLine(r.msg)
    ensures forall t :: t in Fitting(room, given + Texts(replies)) ==> IsLine(t)
  {
    var texts := Texts(replies);
    forall t | t in texts
      ensures IsLine(t)
    {
      var i :| 0 <= i < |texts| && texts[i] == t;
      assert replies[i] in replies;
      ResponseIsLine(replies[i].code, replies[i].msg);
    }
    FittingAreTexts(room, given + texts);
  }

  /** The text that fills the buffer where these overrun the line buffer. */
  lemma BrimText(given: seq<string>, replies: seq<Reply>, size: nat) returns (t: string)
    requires (forall t :: t in given ==> IsLine(t)) && forall r :: r in replies ==> OneLine(r.msg)
    requires BrimLine(Concat(Fitting(size, given + Texts(replies))), size)
    ensures (t in given || t in Texts(replies)) && |t| == size
  {
    GivenAreLines(given, replies, size);
    var fitting := Fitting(size, given + Texts(replies));
    BrimIsOneLine(fitting, size);
    FittingAreTexts(size, given + Texts(replies));
    t := fitting[0];
    assert t in fitting && t in given + Texts(replies);
  }

  /**
   * The replies of one turn, given and then sent, together with those `given` before. Those that do not fit are
   * dropped whole. Of the others the socket gets a front each, in order and once, since what a send leaves over is
   * not sent again: everything reaches it exactly when all fit together and every send takes its whole line.
   */
  method RespondAndSend(output: IoBuffer, replies: seq<Reply>, ghost given: seq<string>)
    returns (sent: seq<string>, overrun: bool)
    requires output.Valid() && output.Contents() == Concat(Fitting(output.size, given))
    requires (forall t :: t in given ==> IsLine(t)) && forall r :: r in replies ==> OneLine(r.msg)
    modifies output`head, output.buffer, output.line
    ensures AllRead(Texts(replies), replies)
    ensures overrun <==> BrimLine(Concat(Fitting(output.size, given + Texts(replies))), output.size)
    ensures !overrun ==> output.Valid() && output.Contents() == ""
    ensures !overrun ==> Reached(sent, given + Texts(replies), output.size)
  {
    ghost var texts := given + Texts(replies);
    TextsRead(replies);
    GivenAreLines(given, replies, output.size);
    RespondAll(output, replies, given);
    ghost var lines;
    sent, overrun, lines := HandleOutput(output);
    if !overrun {
      SentAreFronts(Concat(Fitting(output.size, texts)), output.Contents(), output.size, sent, lines,
                    Fitting(output.size, texts));
      ReachedBy(sent, texts, output.size);
    }
  }
}
